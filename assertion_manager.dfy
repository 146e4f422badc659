/** The assertion manager of `core/assertion_manager.py`: the record check,
    creation with its argument, type and duplicate checks, lookup, update,
    deletion and the sorted listing over the in-memory store; the verdict of
    `verify_assertion` once the element lookup has answered; and the lines
    of `generate_assertion_code`. The driver's element lookup is a
    parameter, and files are not modelled (whether a record's file is found
    and the parsed files of a module are parameters). */
module Assertions {
  import opened Wrappers
  import opened Json
  import opened Records
  import Text

  /** The assertion types `create_assertion` accepts. */
  const AssertionTypes: seq<string> := ["exists", "text", "attribute", "enabled", "displayed"]

  /** `assertion['assertion_type'] == t` */
  predicate OfType(o: Object, t: string) {
    Lookup(o, "assertion_type") == Some(Str(t))
  }

  /** `_validate_assertion`: the five required keys are present, and a
      text assertion also carries `expected_text`. */
  predicate ValidAssertion(o: Object) {
    && HasKey(o, "name") && HasKey(o, "description") && HasKey(o, "locator_type")
    && HasKey(o, "locator_value") && HasKey(o, "assertion_type")
    && (OfType(o, "text") ==> HasKey(o, "expected_text"))
  }

  /** `timeout or self.config['assert']['timeout']`: a given non-zero
      timeout, else the configured one; `None` when the configured one is
      needed and missing, which makes the lookup raise. */
  function TimeoutFor(timeout: Option<int>, configTimeout: Option<Value>): Option<Value> {
    if timeout.Some? && timeout.value != 0 then Some(Int(timeout.value)) else configTimeout
  }

  /** The keys of the record `create_assertion` stores, in insertion order. */
  const AssertionKeys: seq<string> := [
    "name", "description", "locator_type", "locator_value", "assertion_type", "expected_text", "timeout",
    "created_at", "updated_at", "status"]

  /** `expected_text if assertion_type == 'text' else None` */
  function ExpectedText(assertionType: string, expectedText: Option<string>): Value {
    if assertionType == "text" && expectedText.Some? then Str(expectedText.value) else Null
  }

  /** The record `create_assertion` stores. */
  function NewAssertion(moduleName: string, name: string, description: string, locatorType: string,
                        locatorValue: string, assertionType: string, expectedText: Option<string>,
                        timeout: Value, now: string): (o: Object)
    ensures Named(o, name)
  {
    var vals := [Str(name), Str(description), Str(locatorType), Str(locatorValue), Str(assertionType),
                 ExpectedText(assertionType, expectedText), timeout, Str(now), Str(now), Str("active")];
    ZipAt(AssertionKeys, vals, 0);
    Zip(AssertionKeys, vals)
  }

  /** The new record passes the record check and has the requested type, */
  lemma NewAssertionValid(moduleName: string, name: string, description: string, locatorType: string,
                          locatorValue: string, assertionType: string, expectedText: Option<string>,
                          timeout: Value, now: string)
    ensures var o := NewAssertion(moduleName, name, description, locatorType, locatorValue, assertionType,
                                  expectedText, timeout, now);
      ValidAssertion(o) && OfType(o, assertionType)
  {
    var vals := [Str(name), Str(description), Str(locatorType), Str(locatorValue), Str(assertionType),
                 ExpectedText(assertionType, expectedText), timeout, Str(now), Str(now), Str("active")];
    ZipHasKey(AssertionKeys, vals, "description");
    ZipHasKey(AssertionKeys, vals, "locator_type");
    ZipHasKey(AssertionKeys, vals, "locator_value");
    ZipHasKey(AssertionKeys, vals, "expected_text");
    ZipAt(AssertionKeys, vals, 4);
  }

  /** keeps the expected text only for a text assertion, and stores the
      locator type, the timeout, the time of creation and the status
      'active', */
  lemma NewAssertionFields(moduleName: string, name: string, description: string, locatorType: string,
                           locatorValue: string, assertionType: string, expectedText: Option<string>,
                           timeout: Value, now: string)
    ensures var o := NewAssertion(moduleName, name, description, locatorType, locatorValue, assertionType,
                                  expectedText, timeout, now);
      && Lookup(o, "expected_text") ==
           Some(if assertionType == "text" && expectedText.Some? then Str(expectedText.value) else Null)
      && Lookup(o, "locator_type") == Some(Str(locatorType))
      && Lookup(o, "timeout") == Some(timeout)
      && Lookup(o, "status") == Some(Str("active")) && Lookup(o, "updated_at") == Some(Str(now))
  {
    var vals := [Str(name), Str(description), Str(locatorType), Str(locatorValue), Str(assertionType),
                 ExpectedText(assertionType, expectedText), timeout, Str(now), Str(now), Str("active")];
    ZipUnique(AssertionKeys, vals);
    ZipUniqueAt(AssertionKeys, vals, 2);
    ZipUniqueAt(AssertionKeys, vals, 5);
    ZipUniqueAt(AssertionKeys, vals, 6);
    ZipUniqueAt(AssertionKeys, vals, 8);
    ZipUniqueAt(AssertionKeys, vals, 9);
  }

  /** but no attribute name and no expected value, */
  lemma NewAssertionNoAttribute(moduleName: string, name: string, description: string, locatorType: string,
                                locatorValue: string, assertionType: string, expectedText: Option<string>,
                                timeout: Value, now: string)
    ensures var o := NewAssertion(moduleName, name, description, locatorType, locatorValue, assertionType,
                                  expectedText, timeout, now);
      !HasKey(o, "attribute_name") && !HasKey(o, "expected_value")
  {
    var vals := [Str(name), Str(description), Str(locatorType), Str(locatorValue), Str(assertionType),
                 ExpectedText(assertionType, expectedText), timeout, Str(now), Str(now), Str("active")];
    ZipHasKey(AssertionKeys, vals, "attribute_name");
    ZipHasKey(AssertionKeys, vals, "expected_value");
  }

  /** each key once. */
  lemma NewAssertionUnique(moduleName: string, name: string, description: string, locatorType: string,
                           locatorValue: string, assertionType: string, expectedText: Option<string>,
                           timeout: Value, now: string)
    ensures KeysUnique(NewAssertion(moduleName, name, description, locatorType, locatorValue, assertionType,
                                    expectedText, timeout, now))
  {
    var vals := [Str(name), Str(description), Str(locatorType), Str(locatorValue), Str(assertionType),
                 ExpectedText(assertionType, expectedText), timeout, Str(now), Str(now), Str("active")];
    ZipUnique(AssertionKeys, vals);
  }

  class AssertionManager {
    const store: Store

    ghost predicate Valid()
      reads this, store
    {
      store.Valid()
    }

    constructor ()
      ensures Valid() && fresh(store) && store.records == map[] && store.modules == []
    {
      store := new Store();
    }

    /** The loading loop of `load_assertions` for one module directory. */
    method LoadModule(moduleName: string, parsed: seq<Option<Object>>)
      requires Valid()
      modifies store
      ensures Valid()
      ensures store.records == old(store.records)[moduleName := Loaded(parsed, ValidAssertion)]
      ensures store.modules == (if moduleName in old(store.records) then old(store.modules) else old(store.modules) + [moduleName])
    {
      store.LoadModule(moduleName, parsed, ValidAssertion);
    }

    /** `create_assertion`: the six string arguments must be non-empty, the
        type one of `AssertionTypes`, a text assertion must come with a
        non-empty expected text, the name must be new in its module and a
        timeout must be given or configured; the new record is appended to
        the module's list, which is created when missing. */
    method Create(moduleName: string, name: string, description: string, locatorType: string,
                  locatorValue: string, assertionType: string, expectedText: Option<string>,
                  timeout: Option<int>, configTimeout: Option<Value>, now: string) returns (ok: bool)
      requires Valid()
      modifies store
      ensures Valid()
      ensures ok <==>
        && moduleName != "" && name != "" && description != "" && locatorType != "" && locatorValue != ""
        && assertionType in AssertionTypes
        && (assertionType == "text" ==> expectedText.Some? && expectedText.value != "")
        && old(store.Find(moduleName, name)).None?
        && TimeoutFor(timeout, configTimeout).Some?
      ensures ok ==>
        store.records == old(store.records)[moduleName :=
          (if moduleName in old(store.records) then old(store.records)[moduleName] else []) +
          [NewAssertion(moduleName, name, description, locatorType, locatorValue, assertionType, expectedText,
                        TimeoutFor(timeout, configTimeout).value, now)]]
      ensures ok ==>
        store.modules == (if moduleName in old(store.records) then old(store.modules) else old(store.modules) + [moduleName])
      ensures !ok ==> store.records == old(store.records) && store.modules == old(store.modules)
      ensures (timeout.None? || timeout.value == 0) && configTimeout.None? ==> !ok
      ensures ok ==> var rs := store.records[moduleName];
        && rs != []
        && Lookup(rs[|rs| - 1], "timeout") ==
             Some(if timeout.Some? && timeout.value != 0 then Int(timeout.value) else configTimeout.value)
    {
      if moduleName == "" || name == "" || description == "" || locatorType == "" || locatorValue == ""
         || assertionType == "" {
        return false;
      }
      if assertionType !in AssertionTypes {
        return false;
      }
      if assertionType == "text" && (expectedText.None? || expectedText.value == "") {
        return false;
      }
      if store.Find(moduleName, name).Some? {
        return false;
      }
      var t := TimeoutFor(timeout, configTimeout);
      if t.None? {
        return false;
      }
      var o := NewAssertion(moduleName, name, description, locatorType, locatorValue, assertionType, expectedText,
                            t.value, now);
      NewAssertionFields(moduleName, name, description, locatorType, locatorValue, assertionType, expectedText,
                         t.value, now);
      HasKeyExists(o, "name");
      store.Append(moduleName, o);
      ok := true;
    }

    /** `get_assertion` */
    function Get(moduleName: string, name: string): Option<Object>
      reads this, store
    {
      store.Find(moduleName, name)
    }

    /** `update_assertion` */
    method Update(moduleName: string, name: string, updates: Object, fileFound: bool, now: string)
      returns (ok: bool)
      requires Valid() && KeysUnique(updates)
      modifies store
      ensures Valid() && store.modules == old(store.modules)
      ensures ok <==> old(store.Find(moduleName, name)).Some? && AllKnown(old(store.Find(moduleName, name)).value, updates) && fileFound
      ensures old(store.Find(moduleName, name)).None? || !AllKnown(old(store.Find(moduleName, name)).value, updates) ==>
        store.records == old(store.records)
      ensures old(store.Find(moduleName, name)).Some? && AllKnown(old(store.Find(moduleName, name)).value, updates) ==>
        var rs, i := old(store.records)[moduleName], FindNamed(old(store.records)[moduleName], name).value;
        var u := Updated(rs[i], updates, now);
        store.records == old(store.records)[moduleName := if fileFound then ReplaceFirstNamed(rs[i := u], name, u) else rs[i := u]]
    {
      ok := store.UpdateNamed(moduleName, name, updates, fileFound, now);
    }

    /** `delete_assertion` */
    method Delete(moduleName: string, name: string, fileFound: bool) returns (ok: bool)
      requires Valid()
      modifies store
      ensures Valid() && store.modules == old(store.modules)
      ensures ok <==> old(store.Find(moduleName, name)).Some? && fileFound
      ensures ok ==> store.records == old(store.records)[moduleName := DropNamed(old(store.records)[moduleName], name)]
      ensures !ok ==> store.records == old(store.records)
    {
      ok := store.DeleteNamed(moduleName, name, fileFound);
    }

    /** `get_assertions` */
    function List(moduleName: Option<string>, status: Option<string>): seq<Object>
      reads this, store
    {
      store.List(moduleName, status)
    }
  }

  /* ------------------------------------------------------------ verification */

  /** What the driver reports about the element it located: its text,
      whether it is enabled and displayed, and `get_attribute`. */
  datatype Element = Element(text: string, enabled: bool, displayed: bool, attribute: Value -> Option<string>)

  /** The reason `verify_assertion` gives with its verdict. */
  datatype Outcome =
    | InvalidFormat
    | NoConfiguredTimeout
    | NotLocated
    | Exists
    | TextMatch
    | TextMismatch
    | EnabledState
    | DisplayedState
    | MissingAttributeParams
    | AttributeMatch
    | AttributeMismatch
    | UnsupportedType
    | CheckRaised

  datatype Verdict = Verdict(passed: bool, outcome: Outcome)

  /** The checks `verify_assertion` makes before comparing anything: the
      record is valid, the configured timeout exists (it is looked up even
      when the record has its own), the locator type is a string and the
      element was found. */
  predicate Located(o: Object, configTimeout: Option<Value>, element: Option<Element>) {
    && ValidAssertion(o) && configTimeout.Some?
    && Lookup(o, "locator_type").Some? && Lookup(o, "locator_type").value.Str?
    && element.Some?
  }

  /** `verify_assertion` once the element lookup has answered (`None` when
      it timed out or failed). */
  function Verify(o: Object, configTimeout: Option<Value>, element: Option<Element>): (r: Verdict)
    ensures r.passed ==> Located(o, configTimeout, element)
    ensures Located(o, configTimeout, element) && OfType(o, "exists") ==> r == Verdict(true, Exists)
    ensures OfType(o, "text") ==>
      (r.passed <==>
        && Located(o, configTimeout, element) && Get(o, "expected_text").Str?
        && Text.Strip(element.value.text) == Text.Strip(Get(o, "expected_text").s))
    ensures OfType(o, "enabled") ==> (r.passed <==> Located(o, configTimeout, element) && element.value.enabled)
    ensures OfType(o, "displayed") ==> (r.passed <==> Located(o, configTimeout, element) && element.value.displayed)
    ensures OfType(o, "attribute") ==>
      (r.passed <==>
        && Located(o, configTimeout, element)
        && Truthy(Get(o, "attribute_name")) && Truthy(Get(o, "expected_value"))
        && Get(o, "expected_value").Str?
        && element.value.attribute(Get(o, "attribute_name")) == Some(Get(o, "expected_value").s))
    ensures
      (&& Located(o, configTimeout, element) && OfType(o, "attribute")
       && !(Truthy(Get(o, "attribute_name")) && Truthy(Get(o, "expected_value")))) ==>
      r == Verdict(false, MissingAttributeParams)
    ensures
      (!OfType(o, "exists") && !OfType(o, "text") && !OfType(o, "attribute") && !OfType(o, "enabled") &&
       !OfType(o, "displayed")) ==> !r.passed
  {
    if !ValidAssertion(o) then Verdict(false, InvalidFormat)
    else if configTimeout.None? then Verdict(false, NoConfiguredTimeout)
    else if !Lookup(o, "locator_type").value.Str? || element.None? then Verdict(false, NotLocated)
    else
      var e := element.value;
      var kind := Lookup(o, "assertion_type").value;
      if kind == Str("exists") then Verdict(true, Exists)
      else if kind == Str("text") then
        var expected := Lookup(o, "expected_text").value;
        if !expected.Str? then Verdict(false, CheckRaised)
        else if Text.Strip(e.text) == Text.Strip(expected.s) then Verdict(true, TextMatch)
        else Verdict(false, TextMismatch)
      else if kind == Str("enabled") then Verdict(e.enabled, EnabledState)
      else if kind == Str("displayed") then Verdict(e.displayed, DisplayedState)
      else if kind == Str("attribute") then
        var attributeName, expectedValue := Get(o, "attribute_name"), Get(o, "expected_value");
        if !Truthy(attributeName) || !Truthy(expectedValue) then Verdict(false, MissingAttributeParams)
        else
          var actual := match e.attribute(attributeName) case Some(s) => Str(s) case None => Null;
          if actual == expectedValue then Verdict(true, AttributeMatch) else Verdict(false, AttributeMismatch)
      else Verdict(false, UnsupportedType)
  }

  /** What an assertion made by `create_assertion` yields once its element
      is found: an existence check passes, a text check passes iff the
      texts agree up to surrounding whitespace, the state checks report the
      element's state, and an attribute check never passes, since creation
      stores neither `attribute_name` nor `expected_value`. */
  lemma CreatedVerdict(moduleName: string, name: string, description: string, locatorType: string,
                       locatorValue: string, assertionType: string, expectedText: Option<string>,
                       timeout: Value, now: string, configTimeout: Value, e: Element)
    requires assertionType in AssertionTypes
    requires assertionType == "text" ==> expectedText.Some?
    ensures var o := NewAssertion(moduleName, name, description, locatorType, locatorValue, assertionType,
                                  expectedText, timeout, now);
      var r := Verify(o, Some(configTimeout), Some(e));
      && (assertionType == "exists" ==> r.passed)
      && (assertionType == "text" ==> (r.passed <==> Text.Strip(e.text) == Text.Strip(expectedText.value)))
      && (assertionType == "enabled" ==> r.passed == e.enabled)
      && (assertionType == "displayed" ==> r.passed == e.displayed)
      && (assertionType == "attribute" ==> r == Verdict(false, MissingAttributeParams))
  {
    var o := NewAssertion(moduleName, name, description, locatorType, locatorValue, assertionType,
                          expectedText, timeout, now);
    NewAssertionValid(moduleName, name, description, locatorType, locatorValue, assertionType, expectedText, timeout, now);
    NewAssertionFields(moduleName, name, description, locatorType, locatorValue, assertionType, expectedText, timeout, now);
    NewAssertionNoAttribute(moduleName, name, description, locatorType, locatorValue, assertionType, expectedText,
                            timeout, now);
    assert Located(o, Some(configTimeout), Some(e));
  }

  /** An update only rewrites keys the record already has, so an attribute
      assertion without `attribute_name` keeps lacking it after any
      accepted update. */
  lemma UpdateAddsNoKey(o: Object, updates: Object, now: string, k: string)
    requires AllKnown(o, updates) && !HasKey(o, k) && k != "updated_at"
    ensures !HasKey(Updated(o, updates, now), k)
  {
    ApplyUpdatesKeys(o, updates);
    HasKeyIff(o, k);
    HasKeyIff(ApplyUpdates(o, updates), k);
    PutKeys(ApplyUpdates(o, updates), "updated_at", Str(now));
    HasKeyIff(Updated(o, updates, now), k);
  }

  /* ------------------------------------------------------------ code generation */

  /** The lines the branch for each assertion type adds; 0 for a type
      without a branch. */
  function BranchLineCount(o: Object): nat {
    if OfType(o, "exists") then 1
    else if OfType(o, "text") then 3
    else if OfType(o, "enabled") then 1
    else if OfType(o, "displayed") then 1
    else if OfType(o, "attribute") then 3
    else 0
  }

  /** The indentation of every generated line, and the line that opens
      the generated code. */
  const Shift := "    "
  const TryLine := "try:"

  /** The locating lines that open the generated code. */
  function CodeHeader(timeout: Value, locatorType: string, locatorValue: string): (lines: seq<string>)
    ensures |lines| == 4 && lines[0] == TryLine
  {
    [TryLine,
     "    element = WebDriverWait(driver, " + Render(timeout) + ").until(",
     "        EC.presence_of_element_located((AppiumBy." + Text.Upper(locatorType) + ", '" + locatorValue + "'))",
     "    )"]
  }

  /** The fixed lines of the checking branches. */
  const ExistsCheck := "    assert element is not None, '元素不存在'"
  const TextActual := "    actual_text = element.text.strip()"
  const TextCheck := "    assert actual_text == expected_text,         f'文本不匹配: 期望={expected_text}, 实际={actual_text}'"
  const EnabledCheck := "    assert element.is_enabled(), '元素未启用'"
  const DisplayedCheck := "    assert element.is_displayed(), '元素不可见'"
  const AttributeCheck := "    assert actual_value == expected_value,         f'属性不匹配: 期望={expected_value}, 实际={actual_value}'"

  /** The checking lines for the assertion's type. */
  function CodeBranch(o: Object): (lines: seq<string>)
    ensures |lines| == BranchLineCount(o)
  {
    if OfType(o, "exists") then [ExistsCheck]
    else if OfType(o, "text") then
      [TextActual, "    expected_text = '" + Render(Get(o, "expected_text")) + "'.strip()", TextCheck]
    else if OfType(o, "enabled") then [EnabledCheck]
    else if OfType(o, "displayed") then [DisplayedCheck]
    else if OfType(o, "attribute") then [
      "    actual_value = element.get_attribute('" + Render(Get(o, "attribute_name")) + "')",
      "    expected_value = '" + Render(Get(o, "expected_value")) + "'",
      AttributeCheck]
    else []
  }

  /** The exception handlers that close the generated code. */
  function CodeFooter(locatorType: string, locatorValue: string): (lines: seq<string>)
    ensures |lines| == 6 && lines[4] == "except Exception as e:"
  {
    ["except TimeoutException:",
     "    raise AssertionError('未找到元素: " + locatorType + "=" + locatorValue + "')",
     "except StaleElementReferenceException:",
     "    raise AssertionError('元素状态已改变，请重试')",
     "except Exception as e:",
     "    raise AssertionError(f'断言执行失败: {e}')"]
  }

  /** The lines of `generate_assertion_code` before indentation, or `None`
      when it gives up: an invalid record, no configured timeout (looked up
      as the default of `get`), a locator type that is not a string, or an
      attribute assertion without `attribute_name` or `expected_value`. */
  function AssertionCodeLines(o: Object, configTimeout: Option<Value>): (lines: Option<seq<string>>)
    ensures lines.Some? <==>
      && ValidAssertion(o) && configTimeout.Some? && Get(o, "locator_type").Str?
      && (OfType(o, "attribute") ==> HasKey(o, "attribute_name") && HasKey(o, "expected_value"))
    ensures lines.Some? ==> |lines.value| == 4 + BranchLineCount(o) + 6
    ensures lines.Some? ==> lines.value[0] == TryLine && lines.value[|lines.value| - 2] == "except Exception as e:"
  {
    if !ValidAssertion(o) || configTimeout.None? || !Get(o, "locator_type").Str? then None
    else if OfType(o, "attribute") && (!HasKey(o, "attribute_name") || !HasKey(o, "expected_value")) then None
    else
      var timeout := match Lookup(o, "timeout") case Some(t) => t case None => configTimeout.value;
      var locatorType, locatorValue := Get(o, "locator_type").s, Render(Get(o, "locator_value"));
      Some(CodeHeader(timeout, locatorType, locatorValue) + CodeBranch(o) + CodeFooter(locatorType, locatorValue))
  }

  /** The generated code carries the record's own fields: the wait uses
      its timeout (the configured one when it has none), the locator is
      its upper-cased locator type and its locator value, a text check
      compares with its `expected_text`, an attribute check reads its
      `attribute_name` and compares with its `expected_value`, and the
      timeout handler names its locator. */
  lemma AssertionCodeCarries(o: Object, configTimeout: Option<Value>)
    requires AssertionCodeLines(o, configTimeout).Some?
    ensures var lines := AssertionCodeLines(o, configTimeout).value;
      var locatorType, locatorValue := Get(o, "locator_type").s, Render(Get(o, "locator_value"));
      && lines[1] == "    element = WebDriverWait(driver, " + Render(GetOr(o, "timeout", configTimeout.value)) + ").until("
      && lines[2] == "        EC.presence_of_element_located((AppiumBy." + Text.Upper(locatorType) + ", '" + locatorValue + "'))"
      && (OfType(o, "text") ==>
            lines[5] == "    expected_text = '" + Render(Get(o, "expected_text")) + "'.strip()" && lines[6] == TextCheck)
      && (OfType(o, "attribute") ==>
            && lines[4] == "    actual_value = element.get_attribute('" + Render(Get(o, "attribute_name")) + "')"
            && lines[5] == "    expected_value = '" + Render(Get(o, "expected_value")) + "'"
            && lines[6] == AttributeCheck)
      && lines[|lines| - 5] == "    raise AssertionError('未找到元素: " + locatorType + "=" + locatorValue + "')"
  {
    var lines := AssertionCodeLines(o, configTimeout).value;
    var locatorType, locatorValue := Get(o, "locator_type").s, Render(Get(o, "locator_value"));
    var timeout := GetOr(o, "timeout", configTimeout.value);
    var header, branch, footer := CodeHeader(timeout, locatorType, locatorValue), CodeBranch(o), CodeFooter(locatorType, locatorValue);
    assert lines == header + branch + footer;
    assert lines[|lines| - 5] == footer[1];
  }

  /** `generate_assertion_code`: the lines joined by line breaks, each
      indented by four spaces, or "" when it gives up. */
  function GenerateAssertionCode(o: Object, configTimeout: Option<Value>): (code: string)
    ensures code == "" <==> AssertionCodeLines(o, configTimeout).None?
    ensures AssertionCodeLines(o, configTimeout).Some? ==> Text.StartsWith(code, Shift + TryLine)
  {
    match AssertionCodeLines(o, configTimeout)
    case None => ""
    case Some(lines) =>
      var indented := Text.Indent(lines, Shift);
      assert indented[0] == Shift + TryLine;
      assert Text.Join(indented, "\n") == indented[0] + ("\n" + Text.Join(indented[1..], "\n"));
      Text.StartsWithAppend(indented[0], "\n" + Text.Join(indented[1..], "\n"));
      Text.Join(indented, "\n")
  }

  /** Read back line by line, the generated code has one line per
      generated line, each indented by four spaces, as long as no
      interpolated value holds a line break. */
  lemma GeneratedLines(o: Object, configTimeout: Option<Value>)
    requires AssertionCodeLines(o, configTimeout).Some?
    requires forall i :: 0 <= i < |AssertionCodeLines(o, configTimeout).value| ==> '\n' !in AssertionCodeLines(o, configTimeout).value[i]
    ensures var parts := Text.Split(GenerateAssertionCode(o, configTimeout), '\n');
      && |parts| == 4 + BranchLineCount(o) + 6
      && forall i :: 0 <= i < |parts| ==> Text.StartsWith(parts[i], Shift)
  {
    Text.JoinIndented(AssertionCodeLines(o, configTimeout).value, Shift);
  }
}

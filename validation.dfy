/** The request-body rule engine of src/middleware/validation.ts and its
    four prebuilt rule sets. A body is the JSON object the client sent. */
module Validation {
  import opened Wrappers
  import opened Strings
  import opened JsValues
  import opened ErrorHandler
  import Auth

  datatype RuleType = TString | TNumber | TBoolean | TEmail | TArray

  /** `rule.pattern`: the hex colour pattern of the rule sets, or another
      regular expression given by its `test` function. */
  datatype Pattern = HexColor | OtherPattern(test: string -> bool)

  /** What `rule.custom` returned: a message, or a value judged by truthiness. */
  datatype CustomResult = CustomMessage(message: string) | CustomTruthy(ok: bool)

  /** One rule. `minLength`/`maxLength` apply when truthy (not 0); `min`/`max`
      whenever given. */
  datatype Rule = Rule(
    field: string,
    required: bool,
    ruleType: Option<RuleType>,
    minLength: Option<int>,
    maxLength: Option<int>,
    min: Option<int>,
    max: Option<int>,
    pattern: Option<Pattern>,
    custom: Option<Json -> CustomResult>)

  /** The 400 reply sent when at least one rule fails. */
  datatype Rejection = Rejection(status: int, error: string, message: string)

  const VALIDATION_FAILED: string := "Validation failed"

  /** `^#[0-9A-Fa-f]{6}$`. */
  predicate IsHexColor(s: string) {
    |s| == 7 && s[0] == '#' && forall k :: 1 <= k < 7 ==> IsHexDigit(s[k])
  }

  function PatternTest(p: Pattern, s: string): (b: bool)
  {
    match p
    case HexColor => IsHexColor(s)
    case OtherPattern(test) => test(s)
  }

  predicate IsMissing(v: Json) { v == JUndefined || v == JNull }

  /** The message of the type check, when the value fails it. */
  function TypeError(field: string, t: RuleType, v: Json): (r: seq<string>)
    ensures |r| <= 1
  {
    match t
    case TString => if v.JString? then [] else [field + " must be a string"]
    case TNumber => if !v.JNumber? && ToNumber(v).NaN? then [field + " must be a number"] else []
    case TBoolean => if v.JBool? then [] else [field + " must be a boolean"]
    case TEmail =>
      if v.JString? && Auth.ValidateEmail(v.s) then [] else [field + " must be a valid email address"]
    case TArray => if v.JArray? then [] else [field + " must be an array"]
  }

  /** Length limits, for string values only. */
  function LengthErrors(rule: Rule, v: Json): (r: seq<string>)
  {
    if !v.JString? then []
    else
      var n := Utf16Length(v.s);
      (if rule.minLength.Some? && rule.minLength.value != 0 && n < rule.minLength.value
       then [rule.field + " must be at least " + IntToString(rule.minLength.value) + " characters long"]
       else [])
      + (if rule.maxLength.Some? && rule.maxLength.value != 0 && n > rule.maxLength.value
         then [rule.field + " must be at most " + IntToString(rule.maxLength.value) + " characters long"]
         else [])
  }

  /** Range limits, for number values only. */
  function RangeErrors(rule: Rule, v: Json): (r: seq<string>)
  {
    if !v.JNumber? then []
    else
      (if rule.min.Some? && v.n < rule.min.value as real
       then [rule.field + " must be at least " + IntToString(rule.min.value)] else [])
      + (if rule.max.Some? && v.n > rule.max.value as real
         then [rule.field + " must be at most " + IntToString(rule.max.value)] else [])
  }

  function PatternErrors(rule: Rule, v: Json): (r: seq<string>)
  {
    if rule.pattern.Some? && v.JString? && !PatternTest(rule.pattern.value, v.s)
    then [rule.field + " format is invalid"] else []
  }

  function CustomErrors(rule: Rule, v: Json): (r: seq<string>)
  {
    if rule.custom.None? then []
    else match rule.custom.value(v)
      case CustomMessage(m) => [m]
      case CustomTruthy(ok) => if ok then [] else [rule.field + " is invalid"]
  }

  /** The messages one rule adds, in the order the checks run. */
  function RuleErrors(rule: Rule, v: Json): (r: seq<string>)
  {
    if rule.required && (IsMissing(v) || v == JString("")) then [rule.field + " is required"]
    else if IsMissing(v) then []
    else
      (if rule.ruleType.Some? then TypeError(rule.field, rule.ruleType.value, v) else [])
      + LengthErrors(rule, v) + RangeErrors(rule, v) + PatternErrors(rule, v) + CustomErrors(rule, v)
  }

  /** The messages of all rules, rule by rule. */
  function AllErrors(rules: seq<Rule>, body: map<string, Json>): (r: seq<string>)
  {
    if rules == [] then []
    else AllErrors(rules[..|rules| - 1], body)
         + RuleErrors(rules[|rules| - 1], Field(body, rules[|rules| - 1].field))
  }

  /** What the handler does with a request: let it through, answer 400, or
      throw into the application's error handler. */
  datatype Verdict = Passed | Rejected(rejection: Rejection) | Threw(error: JsError)

  /** The TypeError of `body[field]` when the request carries no body. */
  function UndefinedRead(field: string): JsError {
    JsError("TypeError", "Cannot read " + "properties " + "of undefined " + "(reading '" + field + "')")
  }

  /** The handler `validateBody(rules)` returns. `body` is `None` when the
      request carries no body: reading the first rule's field throws. */
  method ValidateBody(rules: seq<Rule>, body: Option<map<string, Json>>) returns (verdict: Verdict)
    ensures body.None? ==> verdict == if rules == [] then Passed else Threw(UndefinedRead(rules[0].field))
    ensures body.Some? ==> (verdict == Passed <==> AllErrors(rules, body.value) == [])
    ensures body.Some? && verdict != Passed ==>
      verdict == Rejected(Rejection(400, VALIDATION_FAILED, Join(AllErrors(rules, body.value), ", ")))
  {
    var errors: seq<string> := [];
    for i := 0 to |rules|
      invariant body.Some? ==> errors == AllErrors(rules[..i], body.value)
      invariant body.None? ==> i == 0
    {
      var rule := rules[i];
      if body.None? {
        return Threw(UndefinedRead(rule.field));
      }
      assert rules[..i + 1][..i] == rules[..i];
      var value := Field(body.value, rule.field);
      if rule.required && (IsMissing(value) || value == JString("")) {
        errors := errors + [rule.field + " is required"];
        continue;
      }
      if IsMissing(value) {
        continue;
      }
      var found: seq<string> := [];
      if rule.ruleType.Some? {
        found := TypeError(rule.field, rule.ruleType.value, value);
      }
      found := found + LengthErrors(rule, value);
      found := found + RangeErrors(rule, value);
      found := found + PatternErrors(rule, value);
      found := found + CustomErrors(rule, value);
      assert found == RuleErrors(rule, value);
      errors := errors + found;
    }
    if body.None? {
      return Passed;
    }
    assert rules[..|rules|] == rules;
    if |errors| > 0 {
      return Rejected(Rejection(400, VALIDATION_FAILED, Join(errors, ", ")));
    }
    return Passed;
  }

  /** None of the letters the error handler's keywords need. */
  predicate NoKeywordLetter(c: char) {
    c != 'k' && c != 'q' && c != 'F' && c != 'U'
  }

  /** No character of `s` is a letter of the handler's keywords. */
  predicate KeywordFree(s: string) {
    forall k :: 0 <= k < |s| ==> NoKeywordLetter(s[k])
  }

  lemma KeywordFreeConcat(a: string, b: string)
    requires KeywordFree(a) && KeywordFree(b)
    ensures KeywordFree(a + b)
  {
    forall k | 0 <= k < |a + b| ensures NoKeywordLetter((a + b)[k]) {
      if k >= |a| { assert (a + b)[k] == b[k - |a|]; }
    }
  }

  /** A text without a letter of `sub` does not contain `sub`. */
  lemma MissingLetterNotContained(s: string, sub: string, j: nat)
    requires j < |sub| && forall k :: 0 <= k < |s| ==> s[k] != sub[j]
    ensures !Contains(s, sub)
  {
    forall i | 0 <= i <= |s| ensures !OccursAt(s, sub, i) {
      if i + |sub| <= |s| {
        assert s[i..i + |sub|][j] != sub[j];
      }
    }
  }

  /** The read of a field on an absent body reaches the error handler as a
      500, since its message holds none of the handler's keywords when the
      field name has none of their letters 'k', 'q', 'F' and 'U'. */
  lemma AbsentBodyIsServerError(field: string, development: bool)
    requires KeywordFree(field)
    ensures var e := UndefinedRead(field);
      HandleError(e, development)
        == ErrorReply(500, "Internal server error", if development then e.message else GENERIC_MESSAGE)
  {
    var m := UndefinedRead(field).message;
    var w1, w2, w3, w4 := "Cannot read ", "properties ", "of undefined ", "(reading '";
    assert KeywordFree(w1) && KeywordFree(w2) && KeywordFree(w3) && KeywordFree(w4) && KeywordFree("')");
    KeywordFreeConcat(w1, w2);
    KeywordFreeConcat(w1 + w2, w3);
    KeywordFreeConcat(w1 + w2 + w3, w4);
    KeywordFreeConcat(w1 + w2 + w3 + w4, field);
    KeywordFreeConcat(w1 + w2 + w3 + w4 + field, "')");
    assert m == w1 + w2 + w3 + w4 + field + "')";
    MissingLetterNotContained(m, "token", 2);
    MissingLetterNotContained(m, "Unauthorized", 0);
    MissingLetterNotContained(m, "File too large", 0);
    MissingLetterNotContained(m, "duplicate key", 10);
    MissingLetterNotContained(m, "unique constraint", 3);
  }

  /** A request to generate certificates that carries no body gets 500. */
  lemma GenerateWithoutBodyIs500(development: bool)
    ensures HandleError(UndefinedRead(GenerateCertificatesRules()[0].field), development).status == 500
  {
    var field := GenerateCertificatesRules()[0].field;
    assert field == "event_name";
    AbsentBodyIsServerError(field, development);
  }

  // ---------------------------------------------------------------------
  // Properties of the engine

  /** The messages of a list of groups, group by group. */
  function Flatten(parts: seq<seq<string>>): (r: seq<string>)
  {
    if parts == [] then [] else Flatten(parts[..|parts| - 1]) + parts[|parts| - 1]
  }

  lemma {:induction false} FlattenEmptyIff(parts: seq<seq<string>>)
    ensures Flatten(parts) == [] <==> forall i :: 0 <= i < |parts| ==> parts[i] == []
  {
    if parts != [] {
      var init := parts[..|parts| - 1];
      FlattenEmptyIff(init);
      assert forall i :: 0 <= i < |init| ==> init[i] == parts[i];
    }
  }

  /** The messages each rule adds, rule by rule. */
  function PerRule(rules: seq<Rule>, body: map<string, Json>): (r: seq<seq<string>>)
    ensures |r| == |rules|
    ensures forall i :: 0 <= i < |rules| ==> r[i] == RuleErrors(rules[i], Field(body, rules[i].field))
  {
    seq(|rules|, i requires 0 <= i < |rules| => RuleErrors(rules[i], Field(body, rules[i].field)))
  }

  lemma {:induction false} AllErrorsIsFlatten(rules: seq<Rule>, body: map<string, Json>)
    ensures AllErrors(rules, body) == Flatten(PerRule(rules, body))
  {
    if rules != [] {
      var n := |rules| - 1;
      AllErrorsIsFlatten(rules[..n], body);
      assert PerRule(rules, body)[..n] == PerRule(rules[..n], body);
    }
  }

  /** The request is rejected exactly when some rule adds a message. */
  lemma RejectedIffSomeRuleFails(rules: seq<Rule>, body: map<string, Json>)
    ensures AllErrors(rules, body) != [] <==>
      exists i :: 0 <= i < |rules| && RuleErrors(rules[i], Field(body, rules[i].field)) != []
  {
    AllErrorsIsFlatten(rules, body);
    FlattenEmptyIff(PerRule(rules, body));
  }

  /** A required field that is missing or empty adds only "<field> is required". */
  lemma RequiredMissingOnly(rule: Rule, v: Json)
    requires rule.required && (v == JUndefined || v == JNull || v == JString(""))
    ensures RuleErrors(rule, v) == [rule.field + " is required"]
  {
  }

  /** An optional field that is undefined or null is not checked at all. */
  lemma OptionalAbsentSkipped(rule: Rule, v: Json)
    requires !rule.required && (v == JUndefined || v == JNull)
    ensures RuleErrors(rule, v) == []
  {
  }

  /** An optional field sent as '' is still checked: its minimum length applies. */
  lemma OptionalEmptyStringChecked(field: string, minLength: int)
    requires minLength > 0
    ensures RuleErrors(Rule(field, false, Some(TString), Some(minLength), None, None, None, None, None), JString(""))
         == [field + " must be at least " + IntToString(minLength) + " characters long"]
  {
    assert Utf16Length("") == 0;
  }

  /** A minimum length of 0 is falsy and never enforced. */
  lemma MinLengthZeroIgnored(rule: Rule, v: Json)
    requires rule.minLength == Some(0) && rule.maxLength.None?
    ensures LengthErrors(rule, v) == []
  {
  }

  /** A string that `Number()` reads as a number passes a number rule, and its
      range is never checked: only real numbers are compared with min/max. */
  lemma NumericStringSkipsRange(field: string, required: bool, min: Option<int>, max: Option<int>, digits: nat)
    ensures RuleErrors(Rule(field, required, Some(TNumber), None, None, min, max, None, None),
                       JString(NatToString(digits))) == []
  {
    var s := NatToString(digits);
    NumberOfDecimal(digits);
    NumberStringPasses(Rule(field, required, Some(TNumber), None, None, min, max, None, None), s);
  }

  /** A string `Number()` reads as finite passes a number rule without
      pattern, length or custom checks. */
  lemma NumberStringPasses(rule: Rule, s: string)
    requires rule.ruleType == Some(TNumber) && s != [] && StringToNumber(s).Finite?
    requires rule.minLength.None? && rule.maxLength.None? && rule.pattern.None? && rule.custom.None?
    ensures RuleErrors(rule, JString(s)) == []
  {
    var v := JString(s);
    assert v != JString("") && !IsMissing(v);
    assert ToNumber(v) == StringToNumber(s);
    assert TypeError(rule.field, TNumber, v) == [];
    assert LengthErrors(rule, v) == [];
    assert RangeErrors(rule, v) == [];
    assert PatternErrors(rule, v) == [] && CustomErrors(rule, v) == [];
  }

  /** A custom check's string result is added as it is; a falsy result adds
      "<field> is invalid". */
  lemma CustomResults(rule: Rule, v: Json)
    requires rule.custom.Some?
    ensures rule.custom.value(v).CustomMessage? ==> CustomErrors(rule, v) == [rule.custom.value(v).message]
    ensures rule.custom.value(v) == CustomTruthy(false) ==> CustomErrors(rule, v) == [rule.field + " is invalid"]
    ensures rule.custom.value(v) == CustomTruthy(true) ==> CustomErrors(rule, v) == []
  {
  }

  // ---------------------------------------------------------------------
  // The prebuilt rule sets

  function RegisterRules(): (r: seq<Rule>)
    ensures |r| == 3
  {
    [ Rule("email", true, Some(TEmail), None, None, None, None, None, None),
      Rule("password", true, Some(TString), Some(8), None, None, None, None, None),
      Rule("organization_name", true, Some(TString), Some(2), Some(255), None, None, None, None) ]
  }

  function LoginRules(): (r: seq<Rule>)
    ensures |r| == 2
  {
    [ Rule("email", true, Some(TEmail), None, None, None, None, None, None),
      Rule("password", true, Some(TString), None, None, None, None, None, None) ]
  }

  function GenerateCertificatesRules(): (r: seq<Rule>)
    ensures |r| == 3
  {
    [ Rule("event_name", true, Some(TString), Some(3), Some(255), None, None, None, None),
      Rule("participant_names", true, Some(TArray), None, None, None, None, None, None),
      Rule("template_id", true, Some(TString), None, None, None, None, None, None) ]
  }

  function TemplateCustomizationRules(): (r: seq<Rule>)
    ensures |r| == 6
  {
    [ Rule("primary_color", true, Some(TString), None, None, None, None, Some(HexColor), None),
      Rule("font_color", true, Some(TString), None, None, None, None, Some(HexColor), None),
      Rule("font_family", true, Some(TString), Some(1), Some(50), None, None, None, None),
      Rule("font_size", true, Some(TNumber), None, None, Some(12), Some(200), None, None),
      Rule("text_x_position", true, Some(TNumber), None, None, Some(0), None, None, None),
      Rule("text_y_position", true, Some(TNumber), None, None, Some(0), None, None, None) ]
  }

  /** No message at all iff every rule passes. */
  lemma NoErrorsIffAllPass(rules: seq<Rule>, body: map<string, Json>)
    ensures AllErrors(rules, body) == [] <==>
      forall i :: 0 <= i < |rules| ==> RuleErrors(rules[i], Field(body, rules[i].field)) == []
  {
    RejectedIffSomeRuleFails(rules, body);
  }

  /** The rule at `i` passes on the body. */
  predicate Passes(rules: seq<Rule>, body: map<string, Json>, i: nat)
    requires i < |rules|
  {
    RuleErrors(rules[i], Field(body, rules[i].field)) == []
  }

  lemma NoErrorsIffTwoPass(rules: seq<Rule>, body: map<string, Json>)
    requires |rules| == 2
    ensures AllErrors(rules, body) == [] <==> Passes(rules, body, 0) && Passes(rules, body, 1)
  {
    NoErrorsIffAllPass(rules, body);
    if Passes(rules, body, 0) && Passes(rules, body, 1) {
      forall i | 0 <= i < |rules| ensures Passes(rules, body, i) {
        if i == 0 {} else {}
      }
    }
  }

  lemma NoErrorsIffThreePass(rules: seq<Rule>, body: map<string, Json>)
    requires |rules| == 3
    ensures AllErrors(rules, body) == [] <==>
      Passes(rules, body, 0) && Passes(rules, body, 1) && Passes(rules, body, 2)
  {
    NoErrorsIffAllPass(rules, body);
    if Passes(rules, body, 0) && Passes(rules, body, 1) && Passes(rules, body, 2) {
      forall i | 0 <= i < |rules| ensures Passes(rules, body, i) {
        if i == 0 {} else if i == 1 {} else {}
      }
    }
  }

  lemma NoErrorsIffSixPass(rules: seq<Rule>, body: map<string, Json>)
    requires |rules| == 6
    ensures AllErrors(rules, body) == [] <==>
      && Passes(rules, body, 0) && Passes(rules, body, 1) && Passes(rules, body, 2)
      && Passes(rules, body, 3) && Passes(rules, body, 4) && Passes(rules, body, 5)
  {
    NoErrorsIffAllPass(rules, body);
    if && Passes(rules, body, 0) && Passes(rules, body, 1) && Passes(rules, body, 2)
       && Passes(rules, body, 3) && Passes(rules, body, 4) && Passes(rules, body, 5) {
      forall i | 0 <= i < |rules| ensures Passes(rules, body, i) {
        if i == 0 {} else if i == 1 {} else if i == 2 {} else if i == 3 {} else if i == 4 {} else {}
      }
    }
  }

  /** A required string with length limits passes iff its length is within them. */
  lemma LengthRulePasses(field: string, lo: int, hi: int, s: string)
    requires 0 < lo <= hi
    ensures RuleErrors(Rule(field, true, Some(TString), Some(lo), Some(hi), None, None, None, None), JString(s)) == []
      <==> lo <= Utf16Length(s) <= hi
  {
  }

  /** A required string passes iff it is not empty. */
  lemma StringRulePasses(field: string, s: string)
    ensures RuleErrors(Rule(field, true, Some(TString), None, None, None, None, None, None), JString(s)) == []
      <==> s != ""
  {
  }

  lemma ArrayRulePasses(field: string, elems: seq<Json>)
    ensures RuleErrors(Rule(field, true, Some(TArray), None, None, None, None, None, None), JArray(elems)) == []
  {
  }

  /** A required colour passes iff it is `#RRGGBB`. */
  lemma ColorRulePasses(field: string, s: string)
    ensures RuleErrors(Rule(field, true, Some(TString), None, None, None, None, Some(HexColor), None), JString(s)) == []
      <==> IsHexColor(s)
  {
  }

  /** A required number passes iff it lies within its bounds. */
  lemma RangeRulePasses(field: string, min: int, max: Option<int>, n: real)
    ensures RuleErrors(Rule(field, true, Some(TNumber), None, None, Some(min), max, None, None), JNumber(n)) == []
      <==> min as real <= n && (max.Some? ==> n <= max.value as real)
  {
  }

  /** A required e-mail passes iff the e-mail pattern matches. */
  lemma EmailRulePasses(field: string, s: string)
    ensures RuleErrors(Rule(field, true, Some(TEmail), None, None, None, None, None, None), JString(s)) == []
      <==> Auth.ValidateEmail(s)
  {
  }

  /** A required string with only a minimum length passes iff it is that long. */
  lemma MinLengthRulePasses(field: string, lo: int, s: string)
    requires 0 < lo
    ensures RuleErrors(Rule(field, true, Some(TString), Some(lo), None, None, None, None, None), JString(s)) == []
      <==> lo <= Utf16Length(s)
  {
  }

  /** A registration with string fields passes iff the e-mail matches, the
      password has at least 8 UTF-16 units and the organisation 2 to 255. */
  lemma RegisterRulesAccept(body: map<string, Json>, email: string, password: string, organization: string)
    requires Field(body, "email") == JString(email)
    requires Field(body, "password") == JString(password)
    requires Field(body, "organization_name") == JString(organization)
    ensures AllErrors(RegisterRules(), body) == [] <==>
      Auth.ValidateEmail(email) && 8 <= Utf16Length(password) && 2 <= Utf16Length(organization) <= 255
  {
    var rules := RegisterRules();
    NoErrorsIffThreePass(rules, body);
    EmailRulePasses("email", email);
    MinLengthRulePasses("password", 8, password);
    LengthRulePasses("organization_name", 2, 255, organization);
  }

  /** A login with string fields passes iff the e-mail matches and the
      password is not empty. */
  lemma LoginRulesAccept(body: map<string, Json>, email: string, password: string)
    requires Field(body, "email") == JString(email)
    requires Field(body, "password") == JString(password)
    ensures AllErrors(LoginRules(), body) == [] <==> Auth.ValidateEmail(email) && password != ""
  {
    var rules := LoginRules();
    NoErrorsIffTwoPass(rules, body);
    EmailRulePasses("email", email);
    StringRulePasses("password", password);
  }

  /** A generate request whose fields have the right JSON types passes iff
      the event name is 3 to 255 characters long and the template id is not
      empty. */
  lemma GenerateRulesAccept(body: map<string, Json>, eventName: string, names: seq<Json>, templateId: string)
    requires Field(body, "event_name") == JString(eventName)
    requires Field(body, "participant_names") == JArray(names)
    requires Field(body, "template_id") == JString(templateId)
    ensures AllErrors(GenerateCertificatesRules(), body) == [] <==>
      3 <= Utf16Length(eventName) <= 255 && templateId != ""
  {
    var rules := GenerateCertificatesRules();
    NoErrorsIffThreePass(rules, body);
    LengthRulePasses("event_name", 3, 255, eventName);
    ArrayRulePasses("participant_names", names);
    StringRulePasses("template_id", templateId);
  }

  /** A customisation whose colours and font family are strings and whose
      size and position are numbers passes iff both colours are `#RRGGBB`, the
      family is 1 to 50 characters, the size lies in [12, 200] and x, y >= 0. */
  lemma CustomizationRulesAccept(body: map<string, Json>, primary: string, font: string, family: string,
                                 size: real, x: real, y: real)
    requires Field(body, "primary_color") == JString(primary)
    requires Field(body, "font_color") == JString(font)
    requires Field(body, "font_family") == JString(family)
    requires Field(body, "font_size") == JNumber(size)
    requires Field(body, "text_x_position") == JNumber(x)
    requires Field(body, "text_y_position") == JNumber(y)
    ensures AllErrors(TemplateCustomizationRules(), body) == [] <==>
      && IsHexColor(primary) && IsHexColor(font)
      && 1 <= Utf16Length(family) <= 50
      && 12.0 <= size <= 200.0 && x >= 0.0 && y >= 0.0
  {
    var rules := TemplateCustomizationRules();
    NoErrorsIffSixPass(rules, body);
    CustomizationColorPasses(body, 0, "primary_color", primary);
    CustomizationColorPasses(body, 1, "font_color", font);
    CustomizationFamilyPasses(body, family);
    CustomizationNumberPasses(body, 3, "font_size", 12, Some(200), size);
    CustomizationNumberPasses(body, 4, "text_x_position", 0, None, x);
    CustomizationNumberPasses(body, 5, "text_y_position", 0, None, y);
  }

  lemma CustomizationColorPasses(body: map<string, Json>, i: nat, field: string, c: string)
    requires i < 2 && TemplateCustomizationRules()[i].field == field && Field(body, field) == JString(c)
    ensures Passes(TemplateCustomizationRules(), body, i) <==> IsHexColor(c)
  {
    var rule := TemplateCustomizationRules()[i];
    assert rule == Rule(field, true, Some(TString), None, None, None, None, Some(HexColor), None);
    ColorRulePasses(field, c);
  }

  lemma CustomizationFamilyPasses(body: map<string, Json>, family: string)
    requires Field(body, "font_family") == JString(family)
    ensures Passes(TemplateCustomizationRules(), body, 2) <==> 1 <= Utf16Length(family) <= 50
  {
    var rule := TemplateCustomizationRules()[2];
    assert rule == Rule("font_family", true, Some(TString), Some(1), Some(50), None, None, None, None);
    LengthRulePasses("font_family", 1, 50, family);
  }

  lemma CustomizationNumberPasses(body: map<string, Json>, i: nat, field: string, min: int, max: Option<int>, n: real)
    requires 3 <= i < 6 && TemplateCustomizationRules()[i] == Rule(field, true, Some(TNumber), None, None, Some(min), max, None, None)
    requires Field(body, field) == JNumber(n)
    ensures Passes(TemplateCustomizationRules(), body, i) <==> min as real <= n && (max.Some? ==> n <= max.value as real)
  {
    RangeRulePasses(field, min, max, n);
  }
}

/**
 * The validation rules of the search group, search group filter and
 * custom field weight models (src/models/SearchGroup.php,
 * SearchGroupFilter.php, CustomFieldWeight.php), and the way
 * `Model::validate()` runs them: rule by rule, attribute by attribute,
 * skipping an attribute that already has an error and, for every
 * validator but `required`, one whose value is empty (`null`, `''` or
 * `[]`). A model passes when no attribute has an error afterwards.
 */
module ModelRules {
  import opened PhpValues

  type Attributes = map<string, Value>
  type Errors = map<string, seq<string>>

  /** What the database and the framework contribute to a validation. */
  datatype Context = Context(
    /** The attribute values of every other stored record of the model's table. */
    others: seq<Attributes>,
    /** The framework's own reserved handle words, added to a rule's list. */
    baseReserved: seq<string>)

  /** An unset attribute reads as `null`. */
  function Get(attrs: Attributes, name: string): Value
  {
    if name in attrs then attrs[name] else Null
  }

  // ---------------------------------------------------------------------
  // PHP and framework notions of "empty"

  /** The validators' `isEmpty`: exactly null, '' and []. */
  predicate Blank(v: Value)
  {
    v == Null || v == Str("") || v == Arr([])
  }

  /** The characters PHP's `trim` strips. */
  predicate TrimmedChar(c: char)
  {
    c == ' ' || c == '\t' || c == '\n' || c == '\r' || c == '\0' || c == '\U{0B}'
  }

  /** `required`: not empty once a string is trimmed. */
  predicate Filled(v: Value)
  {
    match v
    case Null => false
    case Str(s) => exists i :: 0 <= i < |s| && !TrimmedChar(s[i])
    case Arr(entries) => entries != []
    case _ => true
  }

  // ---------------------------------------------------------------------
  // Number and handle syntax

  /** The integer pattern `^\s*[+-]?\d+\s*$`. */
  predicate IntegerText(s: string)
  {
    Digits(Unsigned(TrimSpace(s)))
  }

  /** `[0-9]*\.?[0-9]+`. */
  ghost predicate Mantissa(m: string)
  {
    Digits(m) || exists i :: 0 <= i < |m| && m[i] == '.' && (i == 0 || Digits(m[..i])) && Digits(m[i + 1..])
  }

  /** The number pattern `^\s*[-+]?[0-9]*\.?[0-9]+([eE][-+]?[0-9]+)?\s*$`. */
  ghost predicate NumberText(s: string)
  {
    var t := Unsigned(TrimSpace(s));
    exists i :: 0 <= i <= |t| && Mantissa(t[..i]) && (i == |t| || Exponent(t[i..]))
  }

  /** `number` with `integerOnly`: the value's string form matches the integer pattern. */
  predicate IntegerValue(v: Value)
  {
    match v
    case Int(_) => true
    case Num(r) => r == r.Floor as real
    case Bool(b) => b
    case Str(s) => IntegerText(s)
    case _ => false
  }

  /** `number`: the value's string form matches the number pattern. */
  ghost predicate NumberValue(v: Value)
  {
    match v
    case Int(_) => true
    case Num(_) => true
    case Bool(b) => b
    case Str(s) => NumberText(s)
    case _ => false
  }

  predicate IsLetter(c: char) { 'a' <= c <= 'z' || 'A' <= c <= 'Z' }

  /** The handle pattern `^[a-zA-Z][a-zA-Z0-9_]*$`. */
  predicate HandleText(s: string)
  {
    && |s| > 0 && IsLetter(s[0])
    && forall i :: 0 < i < |s| ==> IsLetter(s[i]) || IsDigit(s[i]) || s[i] == '_'
  }

  function LowerChar(c: char): char
  {
    if 'A' <= c <= 'Z' then (c as int + 32) as char else c
  }

  /** Lower-case, letter by letter (only ASCII letters matter for handles). */
  function Lower(s: string): (r: string)
    ensures |r| == |s|
    ensures forall i :: 0 <= i < |s| ==> r[i] == LowerChar(s[i])
  {
    seq(|s|, i requires 0 <= i < |s| => LowerChar(s[i]))
  }

  /** A reserved word, compared without regard to case. */
  predicate Reserved(handle: string, words: seq<string>)
  {
    exists i :: 0 <= i < |words| && Lower(words[i]) == Lower(handle)
  }

  // ---------------------------------------------------------------------
  // Rules

  /** The validators the three models use. */
  datatype Check =
    | Integer                        // 'number', 'integerOnly' => true
    | Number                         // 'number'
    | Required                       // 'required'
    | MaxLength(max: nat)            // 'string', 'max' => max
    | Handle(reserved: seq<string>)  // HandleValidator, 'reservedWords' => reserved
    | Unique(target: seq<string>)    // UniqueValidator, 'targetAttribute' => target
    | OnlyOneTarget                  // the inline 'validateOnlyOneTarget'

  /** A rule: the attributes it covers, its validator, and whether it skips empty values. */
  datatype Rule = Rule(attrs: seq<string>, check: Check, skipOnEmpty: bool)

  /** A rule with the framework's default of skipping empty values (all but `required`). */
  function R(attrs: seq<string>, check: Check): Rule
  {
    Rule(attrs, check, check != Required)
  }

  /** Another record already holds the same values for every target attribute. */
  predicate Taken(attrs: Attributes, target: seq<string>, others: seq<Attributes>)
  {
    exists k :: 0 <= k < |others| && forall t :: t in target ==> Get(others[k], t) == Get(attrs, t)
  }

  /** Whether a validator other than the inline one accepts attribute `a`. */
  ghost predicate CheckOk(check: Check, attrs: Attributes, ctx: Context, a: string)
  {
    var v := Get(attrs, a);
    match check
    case Integer => IntegerValue(v)
    case Number => NumberValue(v)
    case Required => Filled(v)
    case MaxLength(max) => v.Str? && |v.s| <= max
    case Handle(reserved) =>
      PhpEmpty(v) || (v.Str? && !Reserved(v.s, reserved + ctx.baseReserved) && HandleText(v.s))
    case Unique(target) => !Taken(attrs, target, ctx.others)
    case OnlyOneTarget => PhpEmpty(Get(attrs, "fieldId")) != PhpEmpty(Get(attrs, "attribute"))
  }

  predicate HasErrors(errors: Errors, a: string)
  {
    a in errors && errors[a] != []
  }

  ghost predicate NoErrors(errors: Errors)
  {
    forall a :: !HasErrors(errors, a)
  }

  /** `addError($attribute, $message)`. */
  function AddError(errors: Errors, a: string, message: string): (r: Errors)
    ensures HasErrors(r, a)
    ensures forall b :: b != a ==> (b in r <==> b in errors) && (b in r ==> r[b] == errors[b])
  {
    errors[a := (if a in errors then errors[a] else []) + [message]]
  }

  /**
   * `validateOnlyOneTarget($attribute)`: nothing when either target
   * already has an error; otherwise an error on `$attribute` unless
   * exactly one of fieldId and attribute is non-empty.
   */
  function ValidateOnlyOneTarget(attrs: Attributes, errors: Errors, a: string): (r: Errors)
    ensures r == errors <==>
      || HasErrors(errors, "fieldId") || HasErrors(errors, "attribute")
      || PhpEmpty(Get(attrs, "fieldId")) != PhpEmpty(Get(attrs, "attribute"))
    ensures r != errors ==> HasErrors(r, a)
    ensures forall b :: b != a ==> (b in r <==> b in errors) && (b in r ==> r[b] == errors[b])
  {
    if HasErrors(errors, "fieldId") || HasErrors(errors, "attribute") then errors
    else if !(PhpEmpty(Get(attrs, "fieldId")) != PhpEmpty(Get(attrs, "attribute"))) then
      AddError(errors, a, "Only one of fieldId or attribute may be set.")
    else errors
  }

  /** One validator run on attribute `a`, the inline one included. */
  ghost function RunCheck(check: Check, attrs: Attributes, ctx: Context, errors: Errors, a: string): Errors
  {
    if check == OnlyOneTarget then ValidateOnlyOneTarget(attrs, errors, a)
    else if CheckOk(check, attrs, ctx, a) then errors
    else AddError(errors, a, "is invalid")
  }

  /** `validateAttributes` for one attribute: skipped on a prior error or, when the rule says so, an empty value. */
  ghost function RunOn(rule: Rule, attrs: Attributes, ctx: Context, errors: Errors, a: string): Errors
  {
    if HasErrors(errors, a) || (rule.skipOnEmpty && Blank(Get(attrs, a))) then errors
    else RunCheck(rule.check, attrs, ctx, errors, a)
  }

  /** One rule over the attributes `names`, in order. */
  ghost function RunRule(rule: Rule, attrs: Attributes, ctx: Context, errors: Errors, names: seq<string>): Errors
    decreases |names|
  {
    if names == [] then errors
    else RunRule(rule, attrs, ctx, RunOn(rule, attrs, ctx, errors, names[0]), names[1..])
  }

  /** The rules, in order. */
  ghost function RunRules(rules: seq<Rule>, attrs: Attributes, ctx: Context, errors: Errors): Errors
    decreases |rules|
  {
    if rules == [] then errors
    else RunRules(rules[1..], attrs, ctx, RunRule(rules[0], attrs, ctx, errors, rules[0].attrs))
  }

  /** `validate()`: the model passes when no attribute has an error. */
  ghost predicate Passes(rules: seq<Rule>, attrs: Attributes, ctx: Context)
  {
    NoErrors(RunRules(rules, attrs, ctx, map[]))
  }

  // ---------------------------------------------------------------------
  // Passing, rule by rule

  /** A rule accepts attribute `a` of an error-free model. */
  ghost predicate AttrOk(rule: Rule, attrs: Attributes, ctx: Context, a: string)
  {
    (rule.skipOnEmpty && Blank(Get(attrs, a))) || CheckOk(rule.check, attrs, ctx, a)
  }

  ghost predicate RuleOk(rule: Rule, attrs: Attributes, ctx: Context)
  {
    forall j :: 0 <= j < |rule.attrs| ==> AttrOk(rule, attrs, ctx, rule.attrs[j])
  }

  /** Errors are never taken away. */
  lemma {:induction false} RunRuleKeeps(rule: Rule, attrs: Attributes, ctx: Context, errors: Errors, names: seq<string>, b: string)
    requires HasErrors(errors, b)
    ensures HasErrors(RunRule(rule, attrs, ctx, errors, names), b)
    decreases |names|
  {
    if names != [] {
      var next := RunOn(rule, attrs, ctx, errors, names[0]);
      assert HasErrors(next, b);
      RunRuleKeeps(rule, attrs, ctx, next, names[1..], b);
    }
  }

  lemma {:induction false} RunRulesKeeps(rules: seq<Rule>, attrs: Attributes, ctx: Context, errors: Errors, b: string)
    requires HasErrors(errors, b)
    ensures HasErrors(RunRules(rules, attrs, ctx, errors), b)
    decreases |rules|
  {
    if rules != [] {
      RunRuleKeeps(rules[0], attrs, ctx, errors, rules[0].attrs, b);
      RunRulesKeeps(rules[1..], attrs, ctx, RunRule(rules[0], attrs, ctx, errors, rules[0].attrs), b);
    }
  }

  /** On an error-free model one attribute's run adds an error exactly when the rule does not accept it. */
  lemma RunOnClean(rule: Rule, attrs: Attributes, ctx: Context, errors: Errors, a: string)
    requires NoErrors(errors)
    ensures AttrOk(rule, attrs, ctx, a) ==> RunOn(rule, attrs, ctx, errors, a) == errors
    ensures !AttrOk(rule, attrs, ctx, a) ==> HasErrors(RunOn(rule, attrs, ctx, errors, a), a)
  {
    assert !HasErrors(errors, a) && !HasErrors(errors, "fieldId") && !HasErrors(errors, "attribute");
  }

  lemma {:induction false} RunRuleClean(rule: Rule, attrs: Attributes, ctx: Context, errors: Errors, names: seq<string>)
    requires NoErrors(errors)
    ensures NoErrors(RunRule(rule, attrs, ctx, errors, names)) <==>
      forall j :: 0 <= j < |names| ==> AttrOk(rule, attrs, ctx, names[j])
    decreases |names|
  {
    if names != [] {
      var a := names[0];
      var next := RunOn(rule, attrs, ctx, errors, a);
      RunOnClean(rule, attrs, ctx, errors, a);
      if AttrOk(rule, attrs, ctx, a) {
        RunRuleClean(rule, attrs, ctx, next, names[1..]);
        forall j | 1 <= j < |names| ensures names[j] == names[1..][j - 1] { }
        assert names == [a] + names[1..];
      } else {
        RunRuleKeeps(rule, attrs, ctx, next, names[1..], a);
      }
    }
  }

  /**
   * `validate()` passes exactly when every rule accepts every attribute it
   * names, judged on the model's values alone.
   */
  lemma {:induction false} PassesIff(rules: seq<Rule>, attrs: Attributes, ctx: Context, errors: Errors)
    requires NoErrors(errors)
    ensures NoErrors(RunRules(rules, attrs, ctx, errors)) <==> forall i :: 0 <= i < |rules| ==> RuleOk(rules[i], attrs, ctx)
    decreases |rules|
  {
    if rules != [] {
      var next := RunRule(rules[0], attrs, ctx, errors, rules[0].attrs);
      RunRuleClean(rules[0], attrs, ctx, errors, rules[0].attrs);
      if NoErrors(next) {
        PassesIff(rules[1..], attrs, ctx, next);
        forall i | 1 <= i < |rules| ensures rules[i] == rules[1..][i - 1] { }
      } else {
        var b :| HasErrors(next, b);
        RunRulesKeeps(rules[1..], attrs, ctx, next, b);
      }
    }
  }

  /** A rule over one, two, three, four or six attributes accepts each of them. */
  lemma RuleOkOf(rule: Rule, attrs: Attributes, ctx: Context)
    ensures |rule.attrs| == 1 ==> (RuleOk(rule, attrs, ctx) <==> AttrOk(rule, attrs, ctx, rule.attrs[0]))
    ensures |rule.attrs| == 2 ==> (RuleOk(rule, attrs, ctx) <==>
      AttrOk(rule, attrs, ctx, rule.attrs[0]) && AttrOk(rule, attrs, ctx, rule.attrs[1]))
    ensures |rule.attrs| == 3 ==> (RuleOk(rule, attrs, ctx) <==>
      AttrOk(rule, attrs, ctx, rule.attrs[0]) && AttrOk(rule, attrs, ctx, rule.attrs[1])
      && AttrOk(rule, attrs, ctx, rule.attrs[2]))
    ensures |rule.attrs| == 4 ==> (RuleOk(rule, attrs, ctx) <==>
      AttrOk(rule, attrs, ctx, rule.attrs[0]) && AttrOk(rule, attrs, ctx, rule.attrs[1])
      && AttrOk(rule, attrs, ctx, rule.attrs[2]) && AttrOk(rule, attrs, ctx, rule.attrs[3]))
    ensures |rule.attrs| == 6 ==> (RuleOk(rule, attrs, ctx) <==>
      AttrOk(rule, attrs, ctx, rule.attrs[0]) && AttrOk(rule, attrs, ctx, rule.attrs[1])
      && AttrOk(rule, attrs, ctx, rule.attrs[2]) && AttrOk(rule, attrs, ctx, rule.attrs[3])
      && AttrOk(rule, attrs, ctx, rule.attrs[4]) && AttrOk(rule, attrs, ctx, rule.attrs[5]))
  {
  }

  /** Five or six rules, one by one. */
  lemma AllRulesOk(rules: seq<Rule>, attrs: Attributes, ctx: Context)
    ensures |rules| == 5 ==> ((forall i :: 0 <= i < |rules| ==> RuleOk(rules[i], attrs, ctx)) <==>
      RuleOk(rules[0], attrs, ctx) && RuleOk(rules[1], attrs, ctx) && RuleOk(rules[2], attrs, ctx)
      && RuleOk(rules[3], attrs, ctx) && RuleOk(rules[4], attrs, ctx))
    ensures |rules| == 6 ==> ((forall i :: 0 <= i < |rules| ==> RuleOk(rules[i], attrs, ctx)) <==>
      RuleOk(rules[0], attrs, ctx) && RuleOk(rules[1], attrs, ctx) && RuleOk(rules[2], attrs, ctx)
      && RuleOk(rules[3], attrs, ctx) && RuleOk(rules[4], attrs, ctx) && RuleOk(rules[5], attrs, ctx))
  {
  }

  // ---------------------------------------------------------------------
  // What each model's rules accept, attribute by attribute

  /** Empty, or an integer. */
  ghost predicate IntegerOrBlank(v: Value) { Blank(v) || IntegerValue(v) }

  /** Empty, or a string of at most `max` characters. */
  predicate TextUpTo(v: Value, max: nat) { Blank(v) || (v.Str? && |v.s| <= max) }

  /** Empty in PHP terms, or a handle-shaped string that is not a reserved word. */
  predicate HandleOk(v: Value, reserved: seq<string>, ctx: Context)
  {
    PhpEmpty(v) || (v.Str? && !Reserved(v.s, reserved + ctx.baseReserved) && HandleText(v.s))
  }

  /** Empty, or no other record shares the target attributes' values. */
  predicate UniqueOrBlank(attrs: Attributes, a: string, target: seq<string>, ctx: Context)
  {
    Blank(Get(attrs, a)) || !Taken(attrs, target, ctx.others)
  }

  /** Exactly one of fieldId and attribute is non-empty in PHP terms. */
  predicate ExactlyOneTarget(attrs: Attributes)
  {
    PhpEmpty(Get(attrs, "fieldId")) != PhpEmpty(Get(attrs, "attribute"))
  }

  /** Neither fieldId nor attribute holds anything the validators count as a value. */
  predicate NoTargetGiven(attrs: Attributes)
  {
    Blank(Get(attrs, "fieldId")) && Blank(Get(attrs, "attribute"))
  }

  /** The inline rule as written, skipped on an empty value: one target, or none at all. */
  lemma OnlyOneTargetSkipping(attrs: Attributes, ctx: Context)
    ensures RuleOk(R(["fieldId", "attribute"], OnlyOneTarget), attrs, ctx) <==>
      ExactlyOneTarget(attrs) || NoTargetGiven(attrs)
  {
    RuleOkOf(R(["fieldId", "attribute"], OnlyOneTarget), attrs, ctx);
  }

  /** The inline rule run on empty values too: exactly one target. */
  lemma OnlyOneTargetAlways(attrs: Attributes, ctx: Context)
    ensures RuleOk(Rule(["fieldId", "attribute"], OnlyOneTarget, false), attrs, ctx) <==> ExactlyOneTarget(attrs)
  {
    RuleOkOf(Rule(["fieldId", "attribute"], OnlyOneTarget, false), attrs, ctx);
  }

  const ReservedHandles: seq<string> := ["id", "dateCreated", "dateUpdated", "uid", "title"]

  /** `SearchGroup::rules()`. */
  function SearchGroupRules(): seq<Rule>
  {
    [ R(["id", "siteId", "pageSize", "sortOrder"], Integer),
      R(["siteId", "handle", "name", "template", "pageSize", "searchOrder"], Required),
      R(["handle", "name", "searchOrder"], MaxLength(255)),
      R(["template"], MaxLength(1023)),
      R(["handle"], Handle(ReservedHandles)),
      R(["handle"], Unique(["handle"])) ]
  }

  /** What a search group must satisfy, attribute by attribute. */
  ghost predicate SearchGroupValid(attrs: Attributes, ctx: Context)
  {
    && IntegerOrBlank(Get(attrs, "id")) && IntegerOrBlank(Get(attrs, "sortOrder"))
    && Filled(Get(attrs, "siteId")) && IntegerOrBlank(Get(attrs, "siteId"))
    && Filled(Get(attrs, "pageSize")) && IntegerOrBlank(Get(attrs, "pageSize"))
    && Filled(Get(attrs, "handle")) && TextUpTo(Get(attrs, "handle"), 255)
    && HandleOk(Get(attrs, "handle"), ReservedHandles, ctx) && UniqueOrBlank(attrs, "handle", ["handle"], ctx)
    && Filled(Get(attrs, "name")) && TextUpTo(Get(attrs, "name"), 255)
    && Filled(Get(attrs, "searchOrder")) && TextUpTo(Get(attrs, "searchOrder"), 255)
    && Filled(Get(attrs, "template")) && TextUpTo(Get(attrs, "template"), 1023)
  }

  /** A search group passes validation exactly when it meets every constraint. */
  lemma SearchGroupPasses(attrs: Attributes, ctx: Context)
    ensures Passes(SearchGroupRules(), attrs, ctx) <==> SearchGroupValid(attrs, ctx)
  {
    PassesIff(SearchGroupRules(), attrs, ctx, map[]);
    SearchGroupRulesOk(attrs, ctx);
  }

  lemma SearchGroupRulesOk(attrs: Attributes, ctx: Context)
    ensures (forall i :: 0 <= i < |SearchGroupRules()| ==> RuleOk(SearchGroupRules()[i], attrs, ctx)) <==> SearchGroupValid(attrs, ctx)
  {
    var rules := SearchGroupRules();
    AllRulesOk(rules, attrs, ctx);
    GroupRule0(attrs, ctx);
    GroupRule1(attrs, ctx);
    GroupRule2(attrs, ctx);
    GroupRule3(attrs, ctx);
    GroupRule4(attrs, ctx);
    GroupRule5(attrs, ctx);
  }

  lemma GroupRule0(attrs: Attributes, ctx: Context)
    ensures RuleOk(SearchGroupRules()[0], attrs, ctx) <==>
      IntegerOrBlank(Get(attrs, "id")) && IntegerOrBlank(Get(attrs, "siteId"))
      && IntegerOrBlank(Get(attrs, "pageSize")) && IntegerOrBlank(Get(attrs, "sortOrder"))
  { RuleOkOf(SearchGroupRules()[0], attrs, ctx); }

  lemma GroupRule1(attrs: Attributes, ctx: Context)
    ensures RuleOk(SearchGroupRules()[1], attrs, ctx) <==>
      Filled(Get(attrs, "siteId")) && Filled(Get(attrs, "handle")) && Filled(Get(attrs, "name"))
      && Filled(Get(attrs, "template")) && Filled(Get(attrs, "pageSize")) && Filled(Get(attrs, "searchOrder"))
  { RuleOkOf(SearchGroupRules()[1], attrs, ctx); }

  lemma GroupRule2(attrs: Attributes, ctx: Context)
    ensures RuleOk(SearchGroupRules()[2], attrs, ctx) <==>
      TextUpTo(Get(attrs, "handle"), 255) && TextUpTo(Get(attrs, "name"), 255) && TextUpTo(Get(attrs, "searchOrder"), 255)
  { RuleOkOf(SearchGroupRules()[2], attrs, ctx); }

  lemma GroupRule3(attrs: Attributes, ctx: Context)
    ensures RuleOk(SearchGroupRules()[3], attrs, ctx) <==> TextUpTo(Get(attrs, "template"), 1023)
  { RuleOkOf(SearchGroupRules()[3], attrs, ctx); }

  lemma GroupRule4(attrs: Attributes, ctx: Context)
    ensures RuleOk(SearchGroupRules()[4], attrs, ctx) <==> HandleOk(Get(attrs, "handle"), ReservedHandles, ctx)
  { RuleOkOf(SearchGroupRules()[4], attrs, ctx); }

  lemma GroupRule5(attrs: Attributes, ctx: Context)
    ensures RuleOk(SearchGroupRules()[5], attrs, ctx) <==> UniqueOrBlank(attrs, "handle", ["handle"], ctx)
  { RuleOkOf(SearchGroupRules()[5], attrs, ctx); }

  /** `SearchGroupFilter::rules()` as written: the inline rule skips empty values. */
  function SearchGroupFilterRulesAsWritten(): seq<Rule>
  {
    [ R(["id", "groupId", "fieldId", "sortOrder"], Integer),
      R(["groupId", "name"], Required),
      R(["handle", "name"], MaxLength(255)),
      R(["fieldId", "attribute"], OnlyOneTarget),
      R(["handle"], Handle(ReservedHandles)),
      R(["handle"], Unique(["handle", "fieldId", "attribute"])) ]
  }

  /** `SearchGroupFilter::rules()` with `'skipOnEmpty' => false` on the inline rule. */
  function SearchGroupFilterRules(): seq<Rule>
  {
    SearchGroupFilterRulesAsWritten()[3 := Rule(["fieldId", "attribute"], OnlyOneTarget, false)]
  }

  /** What a filter must satisfy apart from the choice of target. */
  ghost predicate FilterFieldsValid(attrs: Attributes, ctx: Context)
  {
    && IntegerOrBlank(Get(attrs, "id")) && IntegerOrBlank(Get(attrs, "sortOrder"))
    && Filled(Get(attrs, "groupId")) && IntegerOrBlank(Get(attrs, "groupId"))
    && IntegerOrBlank(Get(attrs, "fieldId"))
    && Filled(Get(attrs, "name")) && TextUpTo(Get(attrs, "name"), 255)
    && TextUpTo(Get(attrs, "handle"), 255) && HandleOk(Get(attrs, "handle"), ReservedHandles, ctx)
    && UniqueOrBlank(attrs, "handle", ["handle", "fieldId", "attribute"], ctx)
  }

  /** The filter rules other than the inline one, as both lists share them. */
  lemma FilterFieldRules(rules: seq<Rule>, attrs: Attributes, ctx: Context)
    requires rules == SearchGroupFilterRulesAsWritten() || rules == SearchGroupFilterRules()
    ensures FilterFieldsValid(attrs, ctx) <==>
      && RuleOk(rules[0], attrs, ctx) && RuleOk(rules[1], attrs, ctx) && RuleOk(rules[2], attrs, ctx)
      && RuleOk(rules[4], attrs, ctx) && RuleOk(rules[5], attrs, ctx)
  {
    FilterRule0(attrs, ctx);
    FilterRule1(attrs, ctx);
    FilterRule2(attrs, ctx);
    FilterRule4(attrs, ctx);
    FilterRule5(attrs, ctx);
  }

  lemma FilterRule0(attrs: Attributes, ctx: Context)
    ensures RuleOk(SearchGroupFilterRulesAsWritten()[0], attrs, ctx) <==>
      IntegerOrBlank(Get(attrs, "id")) && IntegerOrBlank(Get(attrs, "groupId"))
      && IntegerOrBlank(Get(attrs, "fieldId")) && IntegerOrBlank(Get(attrs, "sortOrder"))
  { RuleOkOf(SearchGroupFilterRulesAsWritten()[0], attrs, ctx); }

  lemma FilterRule1(attrs: Attributes, ctx: Context)
    ensures RuleOk(SearchGroupFilterRulesAsWritten()[1], attrs, ctx) <==>
      Filled(Get(attrs, "groupId")) && Filled(Get(attrs, "name"))
  { RuleOkOf(SearchGroupFilterRulesAsWritten()[1], attrs, ctx); }

  lemma FilterRule2(attrs: Attributes, ctx: Context)
    ensures RuleOk(SearchGroupFilterRulesAsWritten()[2], attrs, ctx) <==>
      TextUpTo(Get(attrs, "handle"), 255) && TextUpTo(Get(attrs, "name"), 255)
  { RuleOkOf(SearchGroupFilterRulesAsWritten()[2], attrs, ctx); }

  lemma FilterRule4(attrs: Attributes, ctx: Context)
    ensures RuleOk(SearchGroupFilterRulesAsWritten()[4], attrs, ctx) <==> HandleOk(Get(attrs, "handle"), ReservedHandles, ctx)
  { RuleOkOf(SearchGroupFilterRulesAsWritten()[4], attrs, ctx); }

  lemma FilterRule5(attrs: Attributes, ctx: Context)
    ensures RuleOk(SearchGroupFilterRulesAsWritten()[5], attrs, ctx) <==>
      UniqueOrBlank(attrs, "handle", ["handle", "fieldId", "attribute"], ctx)
  { RuleOkOf(SearchGroupFilterRulesAsWritten()[5], attrs, ctx); }

  /**
   * As written, a filter passes when its fields are valid and exactly one
   * target is set, or when no target is given at all.
   */
  lemma SearchGroupFilterPassesAsWritten(attrs: Attributes, ctx: Context)
    ensures Passes(SearchGroupFilterRulesAsWritten(), attrs, ctx) <==>
      FilterFieldsValid(attrs, ctx) && (ExactlyOneTarget(attrs) || NoTargetGiven(attrs))
  {
    var rules := SearchGroupFilterRulesAsWritten();
    PassesIff(rules, attrs, ctx, map[]);
    AllRulesOk(rules, attrs, ctx);
    FilterFieldRules(rules, attrs, ctx);
    OnlyOneTargetSkipping(attrs, ctx);
  }


  /** A filter with neither a field nor an attribute passes the rules as written. */
  lemma NoTargetPassesAsWritten()
    ensures var attrs := map["groupId" := Int(1), "name" := Str("Colour")];
      Passes(SearchGroupFilterRulesAsWritten(), attrs, Context([], [])) && !ExactlyOneTarget(attrs)
  {
    var attrs := map["groupId" := Int(1), "name" := Str("Colour")];
    var ctx := Context([], []);
    assert Get(attrs, "groupId") == Int(1) && Get(attrs, "name") == Str("Colour");
    assert Get(attrs, "id") == Null && Get(attrs, "sortOrder") == Null && Get(attrs, "handle") == Null;
    assert Get(attrs, "fieldId") == Null && Get(attrs, "attribute") == Null;
    assert Filled(Get(attrs, "name")) by { assert !TrimmedChar(Get(attrs, "name").s[0]); }
    assert IntegerOrBlank(Get(attrs, "groupId"));
    assert FilterFieldsValid(attrs, ctx);
    assert NoTargetGiven(attrs);
    SearchGroupFilterPassesAsWritten(attrs, ctx);
  }

  /** With the inline rule run on empty values too, a filter passes exactly when it names one target. */
  lemma SearchGroupFilterPasses(attrs: Attributes, ctx: Context)
    ensures Passes(SearchGroupFilterRules(), attrs, ctx) <==> FilterFieldsValid(attrs, ctx) && ExactlyOneTarget(attrs)
  {
    var rules := SearchGroupFilterRules();
    PassesIff(rules, attrs, ctx, map[]);
    AllRulesOk(rules, attrs, ctx);
    FilterFieldRules(rules, attrs, ctx);
    OnlyOneTargetAlways(attrs, ctx);
  }


  /** `CustomFieldWeight::rules()` as written. */
  function CustomFieldWeightRulesAsWritten(): seq<Rule>
  {
    [ R(["fieldId", "elementTypeId"], Integer),
      R(["multiplier"], Number),
      R(["elementType", "multiplier"], Required),
      R(["elementType"], MaxLength(255)),
      R(["fieldId", "attribute"], OnlyOneTarget) ]
  }

  /** `CustomFieldWeight::rules()` with `'skipOnEmpty' => false` on the inline rule. */
  function CustomFieldWeightRules(): seq<Rule>
  {
    CustomFieldWeightRulesAsWritten()[4 := Rule(["fieldId", "attribute"], OnlyOneTarget, false)]
  }

  /** What a weight must satisfy apart from the choice of target. */
  ghost predicate WeightFieldsValid(attrs: Attributes)
  {
    && IntegerOrBlank(Get(attrs, "fieldId")) && IntegerOrBlank(Get(attrs, "elementTypeId"))
    && Filled(Get(attrs, "multiplier")) && (Blank(Get(attrs, "multiplier")) || NumberValue(Get(attrs, "multiplier")))
    && Filled(Get(attrs, "elementType")) && TextUpTo(Get(attrs, "elementType"), 255)
  }

  /** The weight rules other than the inline one, as both lists share them. */
  lemma WeightFieldRules(rules: seq<Rule>, attrs: Attributes, ctx: Context)
    requires rules == CustomFieldWeightRulesAsWritten() || rules == CustomFieldWeightRules()
    ensures WeightFieldsValid(attrs) <==>
      && RuleOk(rules[0], attrs, ctx) && RuleOk(rules[1], attrs, ctx) && RuleOk(rules[2], attrs, ctx)
      && RuleOk(rules[3], attrs, ctx)
  {
    RuleOkOf(rules[0], attrs, ctx);
    RuleOkOf(rules[1], attrs, ctx);
    RuleOkOf(rules[2], attrs, ctx);
    RuleOkOf(rules[3], attrs, ctx);
  }

  /** A weight passes, as written, when its fields are valid and exactly one target is set or none is given. */
  lemma CustomFieldWeightPassesAsWritten(attrs: Attributes, ctx: Context)
    ensures Passes(CustomFieldWeightRulesAsWritten(), attrs, ctx) <==>
      WeightFieldsValid(attrs) && (ExactlyOneTarget(attrs) || NoTargetGiven(attrs))
  {
    var rules := CustomFieldWeightRulesAsWritten();
    PassesIff(rules, attrs, ctx, map[]);
    AllRulesOk(rules, attrs, ctx);
    WeightFieldRules(rules, attrs, ctx);
    OnlyOneTargetSkipping(attrs, ctx);
  }


  /** A weight with neither a field nor an attribute passes the rules as written. */
  lemma NoWeightTargetPassesAsWritten()
    ensures var attrs := map["elementType" := Str("Entry"), "multiplier" := Num(2.0)];
      Passes(CustomFieldWeightRulesAsWritten(), attrs, Context([], [])) && !ExactlyOneTarget(attrs)
  {
    var attrs := map["elementType" := Str("Entry"), "multiplier" := Num(2.0)];
    UntargetedWeight(attrs);
    CustomFieldWeightPassesAsWritten(attrs, Context([], []));
  }

  /** The fields of the sample weight are valid and it names no target. */
  lemma UntargetedWeight(attrs: Attributes)
    requires attrs == map["elementType" := Str("Entry"), "multiplier" := Num(2.0)]
    ensures WeightFieldsValid(attrs) && NoTargetGiven(attrs)
  {
    assert Get(attrs, "elementType") == Str("Entry") && Get(attrs, "multiplier") == Num(2.0);
    assert Get(attrs, "fieldId") == Null && Get(attrs, "attribute") == Null && Get(attrs, "elementTypeId") == Null;
    assert Filled(Get(attrs, "elementType")) by { assert !TrimmedChar(Get(attrs, "elementType").s[0]); }
  }


  lemma CustomFieldWeightPasses(attrs: Attributes, ctx: Context)
    ensures Passes(CustomFieldWeightRules(), attrs, ctx) <==> WeightFieldsValid(attrs) && ExactlyOneTarget(attrs)
  {
    var rules := CustomFieldWeightRules();
    PassesIff(rules, attrs, ctx, map[]);
    AllRulesOk(rules, attrs, ctx);
    WeightFieldRules(rules, attrs, ctx);
    OnlyOneTargetAlways(attrs, ctx);
  }

}

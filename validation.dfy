/** The request schemas of backend/src/utils/validation.js and its `validate` helper.
    A schema lists its keys in declaration order; each key carries the presence flag,
    the values allowed outright, the exclusive value set of `valid(...)` and the string
    rules in the order they were chained. Validation never stops at the first error
    (`abortEarly: false`). */
module Validation {
  import opened Common

  /** A request body: the fields of a JSON object in the order they were sent. */
  type Body = seq<(string, Json)>

  /** The value a body holds under `key`, or `None` when the key is absent (`undefined`).
      When the request text repeats a key, `JSON.parse` keeps the last value, so this is
      the value of the last field carrying the key. */
  function Lookup(b: Body, key: string): (r: Option<Json>)
    ensures r.None? <==> forall i :: 0 <= i < |b| ==> b[i].0 != key
    ensures r.Some? ==> exists i :: 0 <= i < |b| && b[i] == (key, r.value)
                                     && forall j :: i < j < |b| ==> b[j].0 != key
  {
    if |b| == 0 then None
    else if b[|b| - 1].0 == key then Some(b[|b| - 1].1)
    else
      var r := Lookup(b[..|b| - 1], key);
      assert forall i :: 0 <= i < |b| - 1 ==> b[i] == b[..|b| - 1][i];
      r
  }

  /** The two string formats whose grammar is left to the validation library. */
  datatype Formats = Formats(isEmail: string -> bool, isUri: string -> bool)

  /** A string rule, as chained on `Joi.string()`. */
  datatype Rule = Alphanum | MinLength(n: nat) | MaxLength(n: nat) | EmailFormat | UriFormat

  /** The error codes the schemas can report. */
  datatype Code =
    | AnyRequired | AnyOnly | StringBase | StringEmpty
    | StringAlphanum | StringMin | StringMax | StringEmail | StringUri
    | ObjectUnknown

  /** One key of an object schema. `only` is the exclusive set given to `valid(...)`
      (empty when the key has none); `allowNullOrEmpty` is `allow(null, '')`. */
  datatype Key = Key(name: string, required: bool, allowNullOrEmpty: bool, only: seq<string>, rules: seq<Rule>)

  type Schema = seq<Key>

  /** A failure reported by the library: the path to the offending value and its code. */
  datatype Detail = Detail(path: seq<string>, code: Code)

  /** One entry of `validate`'s `errors` array. */
  datatype FieldError = FieldError(field: string, code: Code)

  /** What `validate` returns: `{ isValid: true, value }` or `{ isValid: false, errors }`. */
  datatype Outcome = Valid(value: Body) | Invalid(errors: seq<FieldError>)

  predicate IsAlphanumericChar(c: char)
  {
    ('a' <= c <= 'z') || ('A' <= c <= 'Z') || ('0' <= c <= '9')
  }

  /** The `alphanum()` pattern `^[a-zA-Z0-9]+$`. */
  predicate IsAlphanumeric(s: string)
  {
    s != [] && forall i :: 0 <= i < |s| ==> IsAlphanumericChar(s[i])
  }

  predicate RuleHolds(rule: Rule, s: string, fm: Formats)
  {
    match rule
    case Alphanum => IsAlphanumeric(s)
    case MinLength(n) => |s| >= n
    case MaxLength(n) => |s| <= n
    case EmailFormat => fm.isEmail(s)
    case UriFormat => fm.isUri(s)
  }

  function RuleCode(rule: Rule): Code
  {
    match rule
    case Alphanum => StringAlphanum
    case MinLength(_) => StringMin
    case MaxLength(_) => StringMax
    case EmailFormat => StringEmail
    case UriFormat => StringUri
  }

  /** Every rule is tried; each one that fails contributes its code, in chain order. */
  function RuleErrors(rules: seq<Rule>, s: string, fm: Formats): (codes: seq<Code>)
    ensures codes == [] <==> forall i :: 0 <= i < |rules| ==> RuleHolds(rules[i], s, fm)
    ensures |codes| <= |rules|
    ensures forall i :: 0 <= i < |rules| && !RuleHolds(rules[i], s, fm) ==> RuleCode(rules[i]) in codes
    ensures forall c :: c in codes ==> exists i :: 0 <= i < |rules| && !RuleHolds(rules[i], s, fm) && RuleCode(rules[i]) == c
  {
    if rules == [] then []
    else
      var rest := RuleErrors(rules[1..], s, fm);
      assert forall i :: 1 <= i < |rules| ==> rules[i] == rules[1..][i - 1];
      (if RuleHolds(rules[0], s, fm) then [] else [RuleCode(rules[0])]) + rest
  }

  /** The username rules of the register schema on "a!": both the pattern and the minimum
      length fail, and both are reported, in chain order. */
  lemma UsernameReportsEveryFailure(fm: Formats)
    ensures RuleErrors([Alphanum, MinLength(3), MaxLength(50)], "a!", fm) == [StringAlphanum, StringMin]
  {
    assert !IsAlphanumericChar('!');
    assert !IsAlphanumeric("a!") by { assert "a!"[1] == '!'; }
  }

  /** The codes one key reports for its value: presence first, then the allowed values,
      then the exclusive set, then the string type (which stops at a non-string or at
      an empty string), then the rules. */
  function KeyErrors(k: Key, v: Option<Json>, fm: Formats): seq<Code>
  {
    match v
    case None => if k.required then [AnyRequired] else []
    case Some(x) =>
      if k.allowNullOrEmpty && (x == Null || x == Str("")) then []
      else if |k.only| > 0 && x.Str? && x.s in k.only then []
      else
        var onlyCode := if |k.only| > 0 then [AnyOnly] else [];
        onlyCode + (if !x.Str? then [StringBase]
                    else if x.s == "" then [StringEmpty]
                    else RuleErrors(k.rules, x.s, fm))
  }

  /** The details of the schema's keys, key by key in declaration order. */
  function KeyDetails(schema: Schema, b: Body, fm: Formats): seq<Detail>
  {
    if schema == [] then []
    else
      var k := schema[0];
      var codes := KeyErrors(k, Lookup(b, k.name), fm);
      seq(|codes|, i requires 0 <= i < |codes| => Detail([k.name], codes[i]))
        + KeyDetails(schema[1..], b, fm)
  }

  predicate Declares(schema: Schema, name: string)
  {
    exists i :: 0 <= i < |schema| && schema[i].name == name
  }

  /** Keys the schema does not declare are refused, in the order the body holds them. */
  function UnknownDetails(schema: Schema, b: Body): seq<Detail>
  {
    if b == [] then []
    else
      (if Declares(schema, b[0].0) then [] else [Detail([b[0].0], ObjectUnknown)])
        + UnknownDetails(schema, b[1..])
  }

  function Details(schema: Schema, b: Body, fm: Formats): seq<Detail>
  {
    KeyDetails(schema, b, fm) + UnknownDetails(schema, b)
  }

  /** `validate(schema, data)`: valid with the value exactly when nothing was reported,
      otherwise every detail, its path joined with '.'. */
  function Validate(schema: Schema, b: Body, fm: Formats): (r: Outcome)
    ensures r.Valid? <==> Details(schema, b, fm) == []
    ensures r.Valid? ==> r.value == b
    ensures r.Invalid? ==> |r.errors| == |Details(schema, b, fm)| > 0
  {
    var details := Details(schema, b, fm);
    if details == [] then Valid(b)
    else Invalid(seq(|details|, i requires 0 <= i < |details| =>
                       FieldError(Join(details[i].path, '.'), details[i].code)))
  }

  /** The string a validated key holds, or "" for an absent or non-string value. */
  function TextOf(v: Option<Json>): (s: string)
    ensures v.Some? && v.value.Str? ==> s == v.value.s
    ensures v.None? ==> s == ""
  {
    if v.Some? && v.value.Str? then v.value.s else ""
  }

  // ---------------------------------------------------------------------------
  // The four schemas (validation.js:4-96)

  const RegisterSchema: Schema := [
    Key("username", true, false, [], [Alphanum, MinLength(3), MaxLength(50)]),
    Key("email", true, false, [], [EmailFormat, MaxLength(100)]),
    Key("password", true, false, [], [MinLength(6), MaxLength(50)]),
    Key("nickname", false, false, [], [MaxLength(50)])
  ]

  const LoginSchema: Schema := [
    Key("username", true, false, [], []),
    Key("password", true, false, [], [])
  ]

  const UpdateUserSchema: Schema := [
    Key("nickname", false, true, [], [MaxLength(50)]),
    Key("avatar", false, true, [], [UriFormat]),
    Key("role", false, false, ["admin", "merchant", "user"], [])
  ]

  const UpdatePasswordSchema: Schema := [
    Key("oldPassword", true, false, [], []),
    Key("newPassword", true, false, [], [MinLength(6), MaxLength(50)])
  ]

  // ---------------------------------------------------------------------------
  // The shape of validate's result

  /** No error is swallowed: every code a declared key reports appears in `errors`
      under that key's name. */
  lemma ReportsEveryKeyError(schema: Schema, b: Body, fm: Formats, j: nat, c: Code)
    requires j < |schema|
    requires c in KeyErrors(schema[j], Lookup(b, schema[j].name), fm)
    ensures Validate(schema, b, fm).Invalid?
    ensures FieldError(schema[j].name, c) in Validate(schema, b, fm).errors
  {
    var d := Detail([schema[j].name], c);
    KeyDetailsContain(schema, b, fm, j, c);
    ReportedDetail(schema, b, fm, d);
  }

  /** Every key the schema does not declare is reported as unknown under its own name. */
  lemma ReportsEveryUnknownKey(schema: Schema, b: Body, fm: Formats, j: nat)
    requires j < |b|
    requires !Declares(schema, b[j].0)
    ensures Validate(schema, b, fm).Invalid?
    ensures FieldError(b[j].0, ObjectUnknown) in Validate(schema, b, fm).errors
  {
    var d := Detail([b[j].0], ObjectUnknown);
    UnknownDetailsContain(schema, b, j);
    ReportedDetail(schema, b, fm, d);
  }

  lemma ReportedDetail(schema: Schema, b: Body, fm: Formats, d: Detail)
    requires |d.path| == 1
    requires d in Details(schema, b, fm)
    ensures Validate(schema, b, fm).Invalid?
    ensures FieldError(d.path[0], d.code) in Validate(schema, b, fm).errors
  {
    var details := Details(schema, b, fm);
    var i :| 0 <= i < |details| && details[i] == d;
    assert Join(d.path, '.') == d.path[0];
    assert Validate(schema, b, fm).errors[i] == FieldError(d.path[0], d.code);
  }

  lemma {:induction false} KeyDetailsContain(schema: Schema, b: Body, fm: Formats, j: nat, c: Code)
    requires j < |schema|
    requires c in KeyErrors(schema[j], Lookup(b, schema[j].name), fm)
    ensures Detail([schema[j].name], c) in KeyDetails(schema, b, fm)
  {
    var k := schema[0];
    var codes := KeyErrors(k, Lookup(b, k.name), fm);
    var here := seq(|codes|, i requires 0 <= i < |codes| => Detail([k.name], codes[i]));
    assert KeyDetails(schema, b, fm) == here + KeyDetails(schema[1..], b, fm);
    if j == 0 {
      var i :| 0 <= i < |codes| && codes[i] == c;
      assert here[i] == Detail([k.name], c);
    } else {
      assert schema[1..][j - 1] == schema[j];
      KeyDetailsContain(schema[1..], b, fm, j - 1, c);
    }
  }

  lemma {:induction false} UnknownDetailsContain(schema: Schema, b: Body, j: nat)
    requires j < |b|
    requires !Declares(schema, b[j].0)
    ensures Detail([b[j].0], ObjectUnknown) in UnknownDetails(schema, b)
  {
    if j > 0 {
      assert b[1..][j - 1] == b[j];
      UnknownDetailsContain(schema, b[1..], j - 1);
    }
  }

  /** The schema accepts a body exactly when every declared key accepts its value and
      the body holds no undeclared key. */
  predicate KeyAccepts(k: Key, b: Body, fm: Formats)
  {
    KeyErrors(k, Lookup(b, k.name), fm) == []
  }

  predicate AllKeysAccept(schema: Schema, b: Body, fm: Formats)
  {
    forall j :: 0 <= j < |schema| ==> KeyAccepts(schema[j], b, fm)
  }

  predicate AllDeclared(schema: Schema, b: Body)
  {
    forall i :: 0 <= i < |b| ==> Declares(schema, b[i].0)
  }

  lemma AcceptsIffEveryKeyAccepts(schema: Schema, b: Body, fm: Formats)
    ensures Validate(schema, b, fm).Valid? <==> AllKeysAccept(schema, b, fm) && AllDeclared(schema, b)
  {
    KeyDetailsEmpty(schema, b, fm);
    UnknownDetailsEmpty(schema, b);
  }

  lemma {:induction false} KeyDetailsEmpty(schema: Schema, b: Body, fm: Formats)
    ensures KeyDetails(schema, b, fm) == [] <==>
              forall j :: 0 <= j < |schema| ==> KeyErrors(schema[j], Lookup(b, schema[j].name), fm) == []
  {
    if schema != [] {
      KeyDetailsEmpty(schema[1..], b, fm);
      assert forall j :: 1 <= j < |schema| ==> schema[j] == schema[1..][j - 1];
    }
  }

  lemma {:induction false} UnknownDetailsEmpty(schema: Schema, b: Body)
    ensures UnknownDetails(schema, b) == [] <==> forall i :: 0 <= i < |b| ==> Declares(schema, b[i].0)
  {
    if b != [] {
      UnknownDetailsEmpty(schema, b[1..]);
      assert forall i :: 1 <= i < |b| ==> b[i] == b[1..][i - 1];
    }
  }

  // ---------------------------------------------------------------------------
  // Each schema, restated key by key as the value it admits

  /** A present, non-empty string. */
  predicate IsText(v: Option<Json>)
  {
    v.Some? && v.value.Str? && v.value.s != ""
  }

  predicate RulesHold(rules: seq<Rule>, s: string, fm: Formats)
  {
    forall i :: 0 <= i < |rules| ==> RuleHolds(rules[i], s, fm)
  }

  lemma RulesHoldCons(rules: seq<Rule>, s: string, fm: Formats)
    requires rules != []
    ensures RulesHold(rules, s, fm) <==> RuleHolds(rules[0], s, fm) && RulesHold(rules[1..], s, fm)
  {
    assert forall i :: 1 <= i < |rules| ==> rules[i] == rules[1..][i - 1];
  }

  /** The rules of a chain hold together exactly when each holds. */
  lemma RulesHoldThree(a: Rule, b: Rule, c: Rule, s: string, fm: Formats)
    ensures RulesHold([a, b, c], s, fm) <==> RuleHolds(a, s, fm) && RuleHolds(b, s, fm) && RuleHolds(c, s, fm)
  {
    RulesHoldCons([a, b, c], s, fm);
    assert [a, b, c][1..] == [b, c];
    RulesHoldCons([b, c], s, fm);
    assert [b, c][1..] == [c];
    RulesHoldCons([c], s, fm);
  }

  lemma RulesHoldTwo(a: Rule, b: Rule, s: string, fm: Formats)
    ensures RulesHold([a, b], s, fm) <==> RuleHolds(a, s, fm) && RuleHolds(b, s, fm)
  {
    RulesHoldCons([a, b], s, fm);
    assert [a, b][1..] == [b];
    RulesHoldCons([b], s, fm);
  }

  /** A plain string key (no `allow`, no `valid`) accepts an absent value when optional,
      and otherwise exactly a non-empty string its rules admit. */
  lemma PlainKeyAccepts(k: Key, v: Option<Json>, fm: Formats)
    requires !k.allowNullOrEmpty && k.only == []
    ensures KeyErrors(k, v, fm) == [] <==>
              (v.None? && !k.required) || (IsText(v) && RulesHold(k.rules, v.value.s, fm))
  {
  }

  /** A key with `allow(null, '')` also accepts null and the empty string. */
  lemma NullableKeyAccepts(k: Key, v: Option<Json>, fm: Formats)
    requires k.allowNullOrEmpty && !k.required && k.only == []
    ensures KeyErrors(k, v, fm) == [] <==>
              v.None? || v.value == Null || v.value == Str("") || (IsText(v) && RulesHold(k.rules, v.value.s, fm))
  {
  }

  /** A key with `valid(...)` accepts only the listed strings. */
  lemma ExclusiveKeyAccepts(k: Key, v: Option<Json>, fm: Formats)
    requires !k.allowNullOrEmpty && !k.required && k.only != []
    ensures KeyErrors(k, v, fm) == [] <==> v.None? || (v.value.Str? && v.value.s in k.only)
  {
  }

  predicate OnlyDeclared(b: Body, names: set<string>)
  {
    forall i :: 0 <= i < |b| ==> b[i].0 in names
  }

  /** registerSchema (validation.js:4-40): username alphanumeric of length 3..50, email in
      the library's email format and at most 100 long, password of length 6..50, an
      optional nickname of at most 50, and nothing else. */
  predicate RegisterAdmits(b: Body, fm: Formats)
  {
    var username, email, password, nickname :=
      Lookup(b, "username"), Lookup(b, "email"), Lookup(b, "password"), Lookup(b, "nickname");
    && IsText(username) && IsAlphanumeric(username.value.s) && 3 <= |username.value.s| <= 50
    && IsText(email) && fm.isEmail(email.value.s) && |email.value.s| <= 100
    && IsText(password) && 6 <= |password.value.s| <= 50
    && (nickname.None? || (IsText(nickname) && |nickname.value.s| <= 50))
    && OnlyDeclared(b, {"username", "email", "password", "nickname"})
  }

  /** loginSchema (validation.js:43-54): two non-empty strings and nothing else. */
  predicate LoginAdmits(b: Body)
  {
    && IsText(Lookup(b, "username"))
    && IsText(Lookup(b, "password"))
    && OnlyDeclared(b, {"username", "password"})
  }

  /** updateUserSchema (validation.js:57-78): every key optional; nickname and avatar may
      be null or ''; role, when present, is one of the three role names. */
  predicate UpdateUserAdmits(b: Body, fm: Formats)
  {
    var nickname, avatar, role := Lookup(b, "nickname"), Lookup(b, "avatar"), Lookup(b, "role");
    && (nickname.None? || nickname.value == Null || (nickname.value.Str? && |nickname.value.s| <= 50))
    && (avatar.None? || avatar.value == Null || avatar.value == Str("") || (avatar.value.Str? && fm.isUri(avatar.value.s)))
    && (role.None? || role.value in {Str("admin"), Str("merchant"), Str("user")})
    && OnlyDeclared(b, {"nickname", "avatar", "role"})
  }

  /** updatePasswordSchema (validation.js:81-96): a non-empty old password and a new one
      of length 6..50, and nothing else. */
  predicate UpdatePasswordAdmits(b: Body)
  {
    && IsText(Lookup(b, "oldPassword"))
    && IsText(Lookup(b, "newPassword")) && 6 <= |Lookup(b, "newPassword").value.s| <= 50
    && OnlyDeclared(b, {"oldPassword", "newPassword"})
  }

  lemma DeclaredNames(schema: Schema, names: set<string>, b: Body)
    requires forall n :: n in names <==> Declares(schema, n)
    ensures AllDeclared(schema, b) <==> OnlyDeclared(b, names)
  {
  }

  lemma AllKeysAcceptUnfold(schema: Schema, b: Body, fm: Formats)
    requires 1 <= |schema|
    ensures AllKeysAccept(schema, b, fm) <==> KeyAccepts(schema[0], b, fm) && AllKeysAccept(schema[1..], b, fm)
  {
    assert forall j :: 1 <= j < |schema| ==> schema[j] == schema[1..][j - 1];
  }

  lemma AllKeysAcceptFour(k0: Key, k1: Key, k2: Key, k3: Key, b: Body, fm: Formats)
    ensures AllKeysAccept([k0, k1, k2, k3], b, fm) <==>
              KeyAccepts(k0, b, fm) && KeyAccepts(k1, b, fm) && KeyAccepts(k2, b, fm) && KeyAccepts(k3, b, fm)
  {
    var s := [k0, k1, k2, k3];
    AllKeysAcceptUnfold(s, b, fm);
    AllKeysAcceptUnfold(s[1..], b, fm);
    AllKeysAcceptUnfold(s[2..], b, fm);
    AllKeysAcceptUnfold(s[3..], b, fm);
    assert s[1..][1..] == s[2..] && s[2..][1..] == s[3..] && s[3..][1..] == [];
  }

  lemma AllKeysAcceptThree(k0: Key, k1: Key, k2: Key, b: Body, fm: Formats)
    ensures AllKeysAccept([k0, k1, k2], b, fm) <==>
              KeyAccepts(k0, b, fm) && KeyAccepts(k1, b, fm) && KeyAccepts(k2, b, fm)
  {
    var s := [k0, k1, k2];
    AllKeysAcceptUnfold(s, b, fm);
    AllKeysAcceptUnfold(s[1..], b, fm);
    AllKeysAcceptUnfold(s[2..], b, fm);
    assert s[1..][1..] == s[2..] && s[2..][1..] == [];
  }

  lemma AllKeysAcceptTwo(k0: Key, k1: Key, b: Body, fm: Formats)
    ensures AllKeysAccept([k0, k1], b, fm) <==> KeyAccepts(k0, b, fm) && KeyAccepts(k1, b, fm)
  {
    var s := [k0, k1];
    AllKeysAcceptUnfold(s, b, fm);
    AllKeysAcceptUnfold(s[1..], b, fm);
    assert s[1..][1..] == [];
  }

  lemma UsernameKey(b: Body, fm: Formats)
    ensures KeyAccepts(RegisterSchema[0], b, fm) <==>
              var v := Lookup(b, "username"); IsText(v) && IsAlphanumeric(v.value.s) && 3 <= |v.value.s| <= 50
  {
    var k := RegisterSchema[0];
    PlainKeyAccepts(k, Lookup(b, "username"), fm);
    var v := Lookup(b, "username");
    if IsText(v) {
      RulesHoldThree(Alphanum, MinLength(3), MaxLength(50), v.value.s, fm);
    }
  }

  lemma EmailKey(b: Body, fm: Formats)
    ensures KeyAccepts(RegisterSchema[1], b, fm) <==>
              var v := Lookup(b, "email"); IsText(v) && fm.isEmail(v.value.s) && |v.value.s| <= 100
  {
    var k := RegisterSchema[1];
    PlainKeyAccepts(k, Lookup(b, "email"), fm);
    var v := Lookup(b, "email");
    if IsText(v) {
      RulesHoldTwo(EmailFormat, MaxLength(100), v.value.s, fm);
    }
  }

  lemma PasswordKey(b: Body, fm: Formats)
    ensures KeyAccepts(RegisterSchema[2], b, fm) <==>
              var v := Lookup(b, "password"); IsText(v) && 6 <= |v.value.s| <= 50
  {
    var k := RegisterSchema[2];
    PlainKeyAccepts(k, Lookup(b, "password"), fm);
    var v := Lookup(b, "password");
    if IsText(v) {
      RulesHoldTwo(MinLength(6), MaxLength(50), v.value.s, fm);
    }
  }

  lemma NicknameKey(b: Body, fm: Formats)
    ensures KeyAccepts(RegisterSchema[3], b, fm) <==>
              var v := Lookup(b, "nickname"); v.None? || (IsText(v) && |v.value.s| <= 50)
  {
    var k := RegisterSchema[3];
    PlainKeyAccepts(k, Lookup(b, "nickname"), fm);
    var v := Lookup(b, "nickname");
    if IsText(v) {
      RulesHoldCons(k.rules, v.value.s, fm);
    }
  }

  lemma RegisterSchemaAdmits(b: Body, fm: Formats)
    ensures Validate(RegisterSchema, b, fm).Valid? <==> RegisterAdmits(b, fm)
  {
    var s := RegisterSchema;
    AcceptsIffEveryKeyAccepts(s, b, fm);
    assert s[0].name == "username";
    assert s[1].name == "email";
    assert s[2].name == "password";
    assert s[3].name == "nickname";
    DeclaredNames(s, {"username", "email", "password", "nickname"}, b);
    AllKeysAcceptFour(s[0], s[1], s[2], s[3], b, fm);
    UsernameKey(b, fm);
    EmailKey(b, fm);
    PasswordKey(b, fm);
    NicknameKey(b, fm);
  }

  lemma LoginSchemaAdmits(b: Body, fm: Formats)
    ensures Validate(LoginSchema, b, fm).Valid? <==> LoginAdmits(b)
  {
    var s := LoginSchema;
    AcceptsIffEveryKeyAccepts(s, b, fm);
    assert s[0].name == "username";
    assert s[1].name == "password";
    DeclaredNames(s, {"username", "password"}, b);
    AllKeysAcceptUnfold(s, b, fm);
    AllKeysAcceptUnfold(s[1..], b, fm);
    assert s[1..][1..] == [];
    PlainKeyAccepts(s[0], Lookup(b, "username"), fm);
    PlainKeyAccepts(s[1], Lookup(b, "password"), fm);
  }

  lemma ProfileNicknameKey(b: Body, fm: Formats)
    ensures KeyAccepts(UpdateUserSchema[0], b, fm) <==>
              var v := Lookup(b, "nickname");
              v.None? || v.value == Null || (v.value.Str? && |v.value.s| <= 50)
  {
    var k := UpdateUserSchema[0];
    NullableKeyAccepts(k, Lookup(b, "nickname"), fm);
    var v := Lookup(b, "nickname");
    if IsText(v) {
      RulesHoldCons(k.rules, v.value.s, fm);
    }
  }

  lemma AvatarKey(b: Body, fm: Formats)
    ensures KeyAccepts(UpdateUserSchema[1], b, fm) <==>
              var v := Lookup(b, "avatar");
              v.None? || v.value == Null || v.value == Str("") || (v.value.Str? && fm.isUri(v.value.s))
  {
    var k := UpdateUserSchema[1];
    NullableKeyAccepts(k, Lookup(b, "avatar"), fm);
    var v := Lookup(b, "avatar");
    if IsText(v) {
      RulesHoldCons(k.rules, v.value.s, fm);
    }
  }

  lemma RoleKey(b: Body, fm: Formats)
    ensures KeyAccepts(UpdateUserSchema[2], b, fm) <==>
              var v := Lookup(b, "role"); v.None? || v.value in {Str("admin"), Str("merchant"), Str("user")}
  {
    ExclusiveKeyAccepts(UpdateUserSchema[2], Lookup(b, "role"), fm);
  }

  lemma UpdateUserSchemaAdmits(b: Body, fm: Formats)
    ensures Validate(UpdateUserSchema, b, fm).Valid? <==> UpdateUserAdmits(b, fm)
  {
    var s := UpdateUserSchema;
    AcceptsIffEveryKeyAccepts(s, b, fm);
    assert s[0].name == "nickname";
    assert s[1].name == "avatar";
    assert s[2].name == "role";
    DeclaredNames(s, {"nickname", "avatar", "role"}, b);
    AllKeysAcceptThree(s[0], s[1], s[2], b, fm);
    ProfileNicknameKey(b, fm);
    AvatarKey(b, fm);
    RoleKey(b, fm);
  }

  lemma UpdatePasswordSchemaAdmits(b: Body, fm: Formats)
    ensures Validate(UpdatePasswordSchema, b, fm).Valid? <==> UpdatePasswordAdmits(b)
  {
    var s := UpdatePasswordSchema;
    AcceptsIffEveryKeyAccepts(s, b, fm);
    assert s[0].name == "oldPassword";
    assert s[1].name == "newPassword";
    DeclaredNames(s, {"oldPassword", "newPassword"}, b);
    AllKeysAcceptUnfold(s, b, fm);
    AllKeysAcceptUnfold(s[1..], b, fm);
    assert s[1..][1..] == [];
    PlainKeyAccepts(s[0], Lookup(b, "oldPassword"), fm);
    PlainKeyAccepts(s[1], Lookup(b, "newPassword"), fm);
    forall p: string ensures RulesHold(s[1].rules, p, fm) <==> 6 <= |p| <= 50 {
      RulesHoldTwo(MinLength(6), MaxLength(50), p, fm);
    }
  }
}

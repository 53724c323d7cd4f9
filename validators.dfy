/**
 * The request schemas of the claim API, as predicates over a parsed JSON
 * value. An address is `0x` and 40 hexadecimal digits, a session id `0x`
 * and 64; `score` is an integer in [0, 10000]; `timestamp` a positive
 * integer. Parsing an object collects one set of issues over all its
 * fields; unknown keys are dropped.
 */
module Validators {
  import opened Wrappers
  import Text
  import ClaimRoute

  /**
   * A parsed JSON value; a number is read as a real. `JSON.parse` turns a
   * literal beyond the double range, such as `1e400`, into an infinity;
   * such numbers are not represented here.
   */
  datatype Json =
    | Null
    | Bool(b: bool)
    | Num(n: real)
    | Str(s: string)
    | Arr(items: seq<Json>)
    | Obj(fields: map<string, Json>)

  /** Why one field, or the whole value, was refused. */
  datatype IssueKind =
    | Required                        // the key is absent (`undefined`)
    | WrongType                       // present, but not of the expected JSON type
    | NotInteger
    | TooSmall(bound: int, inclusive: bool)
    | TooBig(bound: int)
    | Mismatch(message: string)       // a string that fails the pattern

  /** An issue at `path`: a field name, or "" for the value itself. */
  datatype Issue = Issue(path: string, kind: IssueKind)

  /** What `claimRequestSchema` yields on success. */
  datatype ClaimRequest = ClaimRequest(playerAddress: string, score: int, sessionId: string, timestamp: int)

  const AddressDigits: nat := 40
  const SessionIdDigits: nat := 64
  const MaxScore: int := 10000

  /** `/^0x[a-fA-F0-9]{n}$/`: in a JavaScript pattern without flags, `$` is the end of the input. */
  predicate HexString(s: string, n: nat) {
    |s| == 2 + n && s[0] == '0' && s[1] == 'x' && Text.AllHexDigits(s[2..])
  }

  /** `/^\d+$/`: `\d` is the ASCII digits only. */
  predicate DigitString(s: string) {
    s != [] && Text.AllDigits(s)
  }

  /** `Number.isInteger` on a finite number. */
  predicate IsInteger(n: real) {
    n.Floor as real == n
  }

  function Lookup(fields: map<string, Json>, key: string): Option<Json> {
    if key in fields then Some(fields[key]) else None
  }

  // ------------------------------------------------------------ field rules

  predicate ValidAddress(v: Option<Json>) {
    v.Some? && v.value.Str? && HexString(v.value.s, AddressDigits)
  }

  predicate ValidSessionId(v: Option<Json>) {
    v.Some? && v.value.Str? && HexString(v.value.s, SessionIdDigits)
  }

  predicate ValidScore(v: Option<Json>) {
    v.Some? && v.value.Num? && IsInteger(v.value.n) && 0.0 <= v.value.n <= MaxScore as real
  }

  predicate ValidTimestamp(v: Option<Json>) {
    v.Some? && v.value.Num? && IsInteger(v.value.n) && v.value.n > 0.0
  }

  // ------------------------------------------------------- issues per field

  /** `z.string().regex(…, message)`: a type issue, or the pattern's message. */
  function PatternIssues(path: string, v: Option<Json>, digits: nat, message: string): set<Issue> {
    match v
    case None => {Issue(path, Required)}
    case Some(Str(s)) => if HexString(s, digits) then {} else {Issue(path, Mismatch(message))}
    case Some(_) => {Issue(path, WrongType)}
  }

  /** `z.number().int().min(0).max(10000)`: every check that fails is reported. */
  function ScoreIssues(v: Option<Json>): set<Issue> {
    match v
    case None => {Issue("score", Required)}
    case Some(Num(n)) =>
      (if IsInteger(n) then {} else {Issue("score", NotInteger)})
      + (if n < 0.0 then {Issue("score", TooSmall(0, true))} else {})
      + (if n > MaxScore as real then {Issue("score", TooBig(MaxScore))} else {})
    case Some(_) => {Issue("score", WrongType)}
  }

  /** `z.number().int().positive()`. */
  function TimestampIssues(v: Option<Json>): set<Issue> {
    match v
    case None => {Issue("timestamp", Required)}
    case Some(Num(n)) =>
      (if IsInteger(n) then {} else {Issue("timestamp", NotInteger)})
      + (if n <= 0.0 then {Issue("timestamp", TooSmall(0, false))} else {})
    case Some(_) => {Issue("timestamp", WrongType)}
  }

  function ClaimRequestIssues(fields: map<string, Json>): set<Issue> {
    PatternIssues("playerAddress", Lookup(fields, "playerAddress"), AddressDigits, "Invalid Ethereum address")
    + ScoreIssues(Lookup(fields, "score"))
    + PatternIssues("sessionId", Lookup(fields, "sessionId"), SessionIdDigits, "Invalid session ID")
    + TimestampIssues(Lookup(fields, "timestamp"))
  }

  /** The names of the fields of `claimRequestSchema` whose rule fails. */
  function FailingClaimFields(fields: map<string, Json>): set<string> {
    (if ValidAddress(Lookup(fields, "playerAddress")) then {} else {"playerAddress"})
    + (if ValidScore(Lookup(fields, "score")) then {} else {"score"})
    + (if ValidSessionId(Lookup(fields, "sessionId")) then {} else {"sessionId"})
    + (if ValidTimestamp(Lookup(fields, "timestamp")) then {} else {"timestamp"})
  }

  function Paths(issues: set<Issue>): set<string> {
    set i | i in issues :: i.path
  }

  lemma PatternIssuesExact(path: string, v: Option<Json>, digits: nat, message: string)
    ensures Paths(PatternIssues(path, v, digits, message))
      == if v.Some? && v.value.Str? && HexString(v.value.s, digits) then {} else {path}
  {
  }

  lemma ScoreIssuesExact(v: Option<Json>)
    ensures Paths(ScoreIssues(v)) == if ValidScore(v) then {} else {"score"}
  {
    if v.Some? && v.value.Num? {
      var n := v.value.n;
      if !ValidScore(v) {
        if !IsInteger(n) {
          assert Issue("score", NotInteger) in ScoreIssues(v);
        } else if n < 0.0 {
          assert Issue("score", TooSmall(0, true)) in ScoreIssues(v);
        } else {
          assert Issue("score", TooBig(MaxScore)) in ScoreIssues(v);
        }
      }
    }
  }

  lemma TimestampIssuesExact(v: Option<Json>)
    ensures Paths(TimestampIssues(v)) == if ValidTimestamp(v) then {} else {"timestamp"}
  {
    if v.Some? && v.value.Num? {
      var n := v.value.n;
      if !ValidTimestamp(v) {
        if !IsInteger(n) {
          assert Issue("timestamp", NotInteger) in TimestampIssues(v);
        } else {
          assert Issue("timestamp", TooSmall(0, false)) in TimestampIssues(v);
        }
      }
    }
  }

  lemma PathsOfUnion(a: set<Issue>, b: set<Issue>)
    ensures Paths(a + b) == Paths(a) + Paths(b)
  {
  }

  /** The issues of an object name exactly its failing fields. */
  lemma ClaimIssuesName(fields: map<string, Json>)
    ensures Paths(ClaimRequestIssues(fields)) == FailingClaimFields(fields)
  {
    var a := PatternIssues("playerAddress", Lookup(fields, "playerAddress"), AddressDigits, "Invalid Ethereum address");
    var s := ScoreIssues(Lookup(fields, "score"));
    var d := PatternIssues("sessionId", Lookup(fields, "sessionId"), SessionIdDigits, "Invalid session ID");
    var t := TimestampIssues(Lookup(fields, "timestamp"));
    PatternIssuesExact("playerAddress", Lookup(fields, "playerAddress"), AddressDigits, "Invalid Ethereum address");
    ScoreIssuesExact(Lookup(fields, "score"));
    PatternIssuesExact("sessionId", Lookup(fields, "sessionId"), SessionIdDigits, "Invalid session ID");
    TimestampIssuesExact(Lookup(fields, "timestamp"));
    PathsOfUnion(a, s);
    PathsOfUnion(a + s, d);
    PathsOfUnion(a + s + d, t);
  }

  // --------------------------------------------------------------- parsing

  /**
   * `validateClaimRequest(data)`, that is `claimRequestSchema.safeParse(data)`:
   * success with the four fields exactly when each field's rule holds;
   * otherwise the issues, which name exactly the failing fields, or the
   * value itself when it is not an object.
   */
  function ValidateClaimRequest(data: Json): (r: Result<ClaimRequest, set<Issue>>)
    ensures r.Ok? <==>
      data.Obj?
      && ValidAddress(Lookup(data.fields, "playerAddress")) && ValidScore(Lookup(data.fields, "score"))
      && ValidSessionId(Lookup(data.fields, "sessionId")) && ValidTimestamp(Lookup(data.fields, "timestamp"))
    ensures r.Ok? ==>
      && Str(r.value.playerAddress) == data.fields["playerAddress"]
      && Num(r.value.score as real) == data.fields["score"]
      && Str(r.value.sessionId) == data.fields["sessionId"]
      && Num(r.value.timestamp as real) == data.fields["timestamp"]
      && 0 <= r.value.score <= MaxScore && r.value.timestamp > 0
    ensures r.Err? && data.Obj? ==> r.error != {} && Paths(r.error) == FailingClaimFields(data.fields)
    ensures !data.Obj? ==> r == Err({Issue("", WrongType)})
  {
    match data
    case Obj(fields) =>
      var issues := ClaimRequestIssues(fields);
      ClaimIssuesName(fields);
      if issues != {} then Err(issues)
      else
        Ok(ClaimRequest(fields["playerAddress"].s, fields["score"].n.Floor,
                             fields["sessionId"].s, fields["timestamp"].n.Floor))
    case _ => Err({Issue("", WrongType)})
  }

  // ---------------------------------------------------------- GET schema

  predicate ValidDigits(v: Option<Json>) {
    v.Some? && v.value.Str? && DigitString(v.value.s)
  }

  /** `timestamp: z.string().regex(/^\d+$/).optional()`: absent, or a digit string. */
  predicate ValidOptionalDigits(v: Option<Json>) {
    v.None? || ValidDigits(v)
  }

  function DigitsIssues(path: string, v: Option<Json>): set<Issue> {
    match v
    case None => {Issue(path, Required)}
    case Some(Str(s)) => if DigitString(s) then {} else {Issue(path, Mismatch("Invalid"))}
    case Some(_) => {Issue(path, WrongType)}
  }

  /** `getClaimSchema.safeParse(data)` on an object: the issues of its three fields. */
  function GetClaimIssues(fields: map<string, Json>): set<Issue> {
    PatternIssues("address", Lookup(fields, "address"), AddressDigits, "Invalid")
    + DigitsIssues("score", Lookup(fields, "score"))
    + (if "timestamp" in fields then DigitsIssues("timestamp", Some(fields["timestamp"])) else {})
  }

  /** `getClaimSchema` accepts an object exactly when the address, score and optional timestamp rules hold. */
  lemma GetClaimAccepts(fields: map<string, Json>)
    ensures GetClaimIssues(fields) == {} <==>
      ValidAddress(Lookup(fields, "address")) && ValidDigits(Lookup(fields, "score"))
      && ValidOptionalDigits(Lookup(fields, "timestamp"))
  {
    PatternIssuesExact("address", Lookup(fields, "address"), AddressDigits, "Invalid");
    var a := PatternIssues("address", Lookup(fields, "address"), AddressDigits, "Invalid");
    if a != {} {
      var i :| i in a;
      assert i in GetClaimIssues(fields);
    }
  }

  /** A score the GET schema accepts is read by `parseInt` as the number its digits denote. */
  lemma GetScoreParses(fields: map<string, Json>)
    requires GetClaimIssues(fields) == {}
    ensures Text.ParseInt(fields["score"].s) == Some(Text.DigitsValue(fields["score"].s))
  {
    GetClaimAccepts(fields);
    Text.ParseIntOfDigits(fields["score"].s);
  }

  // ---------------------------------------------- schema against the routes

  /** Every score the claim route accepts passes the schema's score rule. */
  lemma RouteScoreFitsSchema(score: int)
    requires ClaimRoute.ValidateScore(Some(score)) == ClaimRoute.Valid
    ensures ValidScore(Some(Num(score as real)))
  {
  }

  /** The schema has no multiple-of-100 rule: 50 is a valid schema score and the route refuses it. */
  lemma SchemaScoreWeakerThanRoute()
    ensures ValidScore(Some(Num(50.0)))
    ensures ClaimRoute.ValidateScore(Some(50)) == ClaimRoute.Invalid("Invalid score format")
  {
  }

  /** Fractional and out-of-range scores are refused, and each failing check is reported. */
  lemma ScoreChecksAccumulate()
    ensures ScoreIssues(Some(Num(10000.5)))
      == {Issue("score", NotInteger), Issue("score", TooBig(MaxScore))}
    ensures ScoreIssues(Some(Num(-0.5))) == {Issue("score", NotInteger), Issue("score", TooSmall(0, true))}
  {
    assert (10000.5).Floor == 10000;
    assert (-0.5).Floor == -1;
  }

  /** The prefix is a lower-case `0x`: `0X` followed by 40 digits is not an address. */
  lemma UpperCasePrefixRefused(digits: string)
    requires |digits| == AddressDigits && Text.AllHexDigits(digits)
    ensures ValidAddress(Some(Str("0x" + digits)))
    ensures !ValidAddress(Some(Str("0X" + digits)))
  {
    assert ("0x" + digits)[2..] == digits;
  }

  /** A session id is not an address and an address is not a session id. */
  lemma AddressAndSessionIdDisjoint(v: Option<Json>)
    ensures !(ValidAddress(v) && ValidSessionId(v))
  {
  }
}

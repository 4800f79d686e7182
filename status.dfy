/** `CharacterStatus` and its case-insensitive parser `fromString`. */
module Status {
  import opened Wrappers

  datatype CharacterStatus = ALIVE | DEAD | UNKNOWN

  /** The enum constant's declared name, as `CharacterStatus.name` gives it. */
  function Name(s: CharacterStatus): string {
    match s
    case ALIVE => "ALIVE"
    case DEAD => "DEAD"
    case UNKNOWN => "UNKNOWN"
  }

  /** Lower-casing of one character; only the ASCII letters change. */
  function LowerChar(c: char): char {
    if 'A' <= c <= 'Z' then (c as int + 32) as char else c
  }

  /** `String.lowercase()`, one character at a time: same length, each position lower-cased. */
  function Lower(s: string): (r: string)
    ensures |r| == |s|
    ensures forall i :: 0 <= i < |s| ==> r[i] == LowerChar(s[i])
  {
    if s == [] then [] else [LowerChar(s[0])] + Lower(s[1..])
  }

  /** `s` equals `t` once every character of `s` is lower-cased. */
  predicate LowersTo(s: string, t: string) {
    |s| == |t| && forall i :: 0 <= i < |s| ==> LowerChar(s[i]) == t[i]
  }

  /** `lowercase()` produces `t` exactly when `s` lower-cases to `t` character by character. */
  lemma LowerIsLowersTo(s: string, t: string)
    ensures Lower(s) == t <==> LowersTo(s, t)
  {
    if LowersTo(s, t) {
      assert Lower(s) == t;
    }
  }

  /** `CharacterStatus.fromString`: "alive" and "dead" in any letter case; everything else, null included, is UNKNOWN. */
  function FromString(status: Option<string>): (r: CharacterStatus)
    ensures r == ALIVE <==> status.Some? && LowersTo(status.value, "alive")
    ensures r == DEAD <==> status.Some? && LowersTo(status.value, "dead")
    ensures r == UNKNOWN <==>
      status.None? || (!LowersTo(status.value, "alive") && !LowersTo(status.value, "dead"))
  {
    match status
    case None => UNKNOWN
    case Some(s) =>
      LowerIsLowersTo(s, "alive");
      LowerIsLowersTo(s, "dead");
      var lowered := Lower(s);
      if lowered == "alive" then ALIVE
      else if lowered == "dead" then DEAD
      else UNKNOWN
  }

  /** Lower-casing twice is lower-casing once. */
  lemma {:induction false} LowerIdempotent(s: string)
    ensures Lower(Lower(s)) == Lower(s)
  {
    if s != [] {
      LowerIdempotent(s[1..]);
      assert Lower(s) == [LowerChar(s[0])] + Lower(s[1..]);
      assert Lower(s)[1..] == Lower(s[1..]);
    }
  }

  /** The parser ignores letter case: a string and its lower-case form parse alike. */
  lemma FromStringIgnoresCase(s: string)
    ensures FromString(Some(s)) == FromString(Some(Lower(s)))
  {
    LowerIdempotent(s);
    LowerIsLowersTo(s, "alive");
    LowerIsLowersTo(s, "dead");
    LowerIsLowersTo(Lower(s), "alive");
    LowerIsLowersTo(Lower(s), "dead");
  }

  /** Every status is recovered from its lower-cased name. */
  lemma FromStringRoundTrip(x: CharacterStatus)
    ensures FromString(Some(Lower(Name(x)))) == x
  {
    match x
    case ALIVE => assert Lower(Name(x)) == "alive";
    case DEAD => assert Lower(Name(x)) == "dead";
    case UNKNOWN =>
      assert Lower(Name(x)) == "unknown";
      assert !LowersTo("unknown", "alive") && !LowersTo("unknown", "dead");
  }
}

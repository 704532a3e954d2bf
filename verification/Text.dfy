/** Text helpers: decimal numerals and white space. */
module Text {

  function Digit(d: nat): char
    requires d < 10
  {
    "0123456789"[d]
  }

  function Decimal(n: nat): (s: string)
    ensures |s| > 0
  {
    if n < 10 then [Digit(n)] else Decimal(n / 10) + [Digit(n % 10)]
  }

  predicate IsSpace(c: char) {
    c in {' ', '\t', '\n', '\r'}
  }

  /** `s.strip()`, for the white space above. */
  function Strip(s: string): (r: string)
    ensures |r| <= |s|
    ensures |r| > 0 ==> !IsSpace(r[0]) && !IsSpace(r[|r| - 1])
  {
    if |s| == 0 then ""
    else if IsSpace(s[0]) then Strip(s[1..])
    else if IsSpace(s[|s| - 1]) then Strip(s[..|s| - 1])
    else s
  }

  predicate Blank(s: string) { Strip(s) == "" }

  predicate AllSpace(s: string) { forall i :: 0 <= i < |s| ==> s[i] in {' ', '\t', '\n', '\r'} }

  lemma SpaceAround(before: string, s: string, after: string)
    requires AllSpace(before) && AllSpace(after)
    ensures AllSpace(before + s + after) <==> AllSpace(s)
  {
    var all := before + s + after;
    if AllSpace(all) {
      forall i | 0 <= i < |s|
        ensures s[i] in {' ', '\t', '\n', '\r'}
      {
        assert s[i] == all[|before| + i];
      }
    }
  }

  /** Stripping takes white space off both ends ... */
  lemma {:induction false} StripsEnds(s: string) returns (before: string, after: string)
    ensures s == before + Strip(s) + after && AllSpace(before) && AllSpace(after)
  {
    before, after := "", "";
    if |s| > 0 && IsSpace(s[0]) {
      var rest: string;
      rest, after := StripsEnds(s[1..]);
      before := [s[0]] + rest;
    } else if |s| > 0 && IsSpace(s[|s| - 1]) {
      var rest: string;
      before, rest := StripsEnds(s[..|s| - 1]);
      after := rest + [s[|s| - 1]];
    }
  }

  /** ... and leaves nothing exactly of white space. */
  lemma BlankIs(s: string)
    ensures Blank(s) <==> AllSpace(s)
  {
    var before, after := StripsEnds(s);
    SpaceAround(before, Strip(s), after);
  }
}

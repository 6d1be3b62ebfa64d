/** Strings as sequences of runes, with the white-space rules the Go backend relies on. */
module Text {

  /** A value that may be absent. */
  datatype Option<+T> = None | Some(value: T)

  /** Unicode White_Space, as Go's `unicode.IsSpace` lists it. */
  predicate IsSpace(c: char) {
    var r := c as int;
    || 9 <= r <= 13
    || r == 0x20 || r == 0x85 || r == 0xA0 || r == 0x1680
    || 0x2000 <= r <= 0x200A
    || r == 0x2028 || r == 0x2029 || r == 0x202F || r == 0x205F || r == 0x3000
  }

  /** Unicode category Cc, as Go's `unicode.IsControl` tests it. */
  predicate IsControl(c: char) {
    var r := c as int;
    r < 0x20 || 0x7F <= r < 0xA0
  }

  function TrimLeft(s: string): string {
    if s != "" && IsSpace(s[0]) then TrimLeft(s[1..]) else s
  }

  function TrimRight(s: string): string {
    if s != "" && IsSpace(s[|s| - 1]) then TrimRight(s[..|s| - 1]) else s
  }

  function TrimSpace(s: string): string {
    TrimRight(TrimLeft(s))
  }

  /** Nothing but white space: what a trim to the empty string tests. */
  predicate Blank(s: string) {
    forall i :: 0 <= i < |s| ==> IsSpace(s[i])
  }

  lemma BlankMeansNothingLeft(s: string)
    ensures Blank(s) <==> TrimSpace(s) == ""
  {
    TrimLeftStops(s);
    var t := TrimLeft(s);
    TrimRightStops(t);
    if t != "" { assert s[|s| - |t|] == t[0]; }
  }

  lemma {:induction false} TrimLeftStops(s: string)
    ensures var t := TrimLeft(s);
            && |t| <= |s| && t == s[|s| - |t|..]
            && (t != "" ==> !IsSpace(t[0]))
            && (t == "" ==> Blank(s))
    decreases |s|
  {
    if s != "" && IsSpace(s[0]) {
      TrimLeftStops(s[1..]);
      if TrimLeft(s) == "" {
        forall i | 0 <= i < |s| ensures IsSpace(s[i]) {
          if i > 0 { assert s[i] == s[1..][i - 1]; }
        }
      }
    }
  }

  lemma {:induction false} TrimRightStops(s: string)
    ensures var t := TrimRight(s);
            && |t| <= |s| && t == s[..|t|]
            && (t != "" ==> !IsSpace(t[|t| - 1]))
            && (s != "" && !IsSpace(s[0]) ==> t != "")
    decreases |s|
  {
    if s != "" && IsSpace(s[|s| - 1]) { TrimRightStops(s[..|s| - 1]); }
  }

  /** No white space at either end. */
  predicate Trimmed(s: string) {
    s != "" ==> !IsSpace(s[0]) && !IsSpace(s[|s| - 1])
  }

  /** Trimming yields a trimmed string and leaves trimmed strings alone. */
  lemma TrimSpaceTrims(s: string)
    ensures Trimmed(TrimSpace(s))
    ensures Trimmed(s) ==> TrimSpace(s) == s
  {
    TrimLeftStops(s);
    TrimRightStops(TrimLeft(s));
  }

  /** Lower-casing rune by rune. */
  function Lowered(lower: char -> char, s: string): (t: string)
    ensures |t| == |s|
  {
    seq(|s|, i requires 0 <= i < |s| => lower(s[i]))
  }

  /** Trimming takes white space off both ends, and nothing else. */
  lemma TrimSpaceTakesTheEndsOff(s: string) returns (from: nat, to: nat)
    ensures from <= to <= |s| && TrimSpace(s) == s[from..to]
    ensures Blank(s[..from]) && Blank(s[to..])
  {
    LeftEndIsBlank(s);
    RightEndIsBlank(TrimLeft(s));
    TrimLeftStops(s);
    TrimRightStops(TrimLeft(s));
    from := |s| - |TrimLeft(s)|;
    to := from + |TrimSpace(s)|;
    assert s[to..] == TrimLeft(s)[|TrimSpace(s)|..];
  }

  lemma {:induction false} LeftEndIsBlank(s: string)
    ensures |TrimLeft(s)| <= |s| && Blank(s[..|s| - |TrimLeft(s)|])
    decreases |s|
  {
    if s != "" && IsSpace(s[0]) {
      LeftEndIsBlank(s[1..]);
      var off := s[..|s| - |TrimLeft(s)|];
      assert off == [s[0]] + s[1..][..|s| - 1 - |TrimLeft(s[1..])|];
    }
  }

  lemma {:induction false} RightEndIsBlank(s: string)
    ensures |TrimRight(s)| <= |s| && Blank(s[|TrimRight(s)|..])
    decreases |s|
  {
    if s != "" && IsSpace(s[|s| - 1]) {
      var front := s[..|s| - 1];
      RightEndIsBlank(front);
      assert s[|TrimRight(s)|..] == front[|TrimRight(front)|..] + [s[|s| - 1]];
    }
  }
}

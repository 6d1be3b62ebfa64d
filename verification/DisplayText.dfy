/**
 The sanitizers of desktop window fields: loops over runes that filter, squeeze spaces and
 stop once enough bytes are written (backend/internal/domain/desktop.go). Letters, digits and
 lower-casing are those of the Unicode tables, given as parameters.
 */
module DisplayText {
  import opened Text

  datatype Unicode = Unicode(isLetter: char -> bool, isDigit: char -> bool, lower: char -> char)

  /** Letters and digits are visible; the ASCII letters are letters. */
  ghost predicate Sane(u: Unicode) {
    && (forall c :: u.isLetter(c) || u.isDigit(c) ==> !IsSpace(c))
    && (forall c :: 'a' <= c <= 'z' || 'A' <= c <= 'Z' ==> u.isLetter(c))
  }

  /** The bytes of a rune in UTF-8. */
  function Width(c: char): (n: nat)
    ensures 1 <= n <= 4
  {
    var r := c as int;
    if r < 0x80 then 1 else if r < 0x800 then 2 else if r < 0x10000 then 3 else 4
  }

  // ---------------------------------------------------------------- stopping at a byte limit

  /** The runes up to and including the one that reaches `max` bytes. */
  function Cut(s: string, max: int): string {
    if s == "" then "" else if Width(s[0]) >= max then [s[0]] else [s[0]] + Cut(s[1..], max - Width(s[0]))
  }

  /** Only the last rune, if any, reaches `max` bytes. */
  predicate Fits(s: string, max: int) {
    |s| > 1 ==> Width(s[0]) < max && Fits(s[1..], max - Width(s[0]))
  }

  lemma {:induction false} CutFits(s: string, max: int)
    ensures Fits(Cut(s, max), max)
    ensures Fits(s, max) ==> Cut(s, max) == s
    ensures |Cut(s, max)| <= |s| && Cut(s, max) == s[..|Cut(s, max)|]
    decreases |s|
  {
    if s != "" && Width(s[0]) < max {
      CutFits(s[1..], max - Width(s[0]));
      assert Cut(s, max)[1..] == Cut(s[1..], max - Width(s[0]));
    }
  }

  /** The bytes of a text in UTF-8. */
  function Size(s: string): nat {
    if s == "" then 0 else Width(s[0]) + Size(s[1..])
  }

  /** Nothing is cut off before the limit is reached. */
  lemma {:induction false} CutReachesTheLimit(s: string, max: int)
    ensures Cut(s, max) != s ==> Size(Cut(s, max)) >= max
    decreases |s|
  {
    if s != "" {
      var rest := Cut(s[1..], max - Width(s[0]));
      CutReachesTheLimit(s[1..], max - Width(s[0]));
      assert s == [s[0]] + s[1..];
      if Width(s[0]) < max { assert Cut(s, max)[1..] == rest; }
    }
  }

  lemma {:induction false} FitsLess(s: string, max: int, more: int)
    requires Fits(s, max) && max <= more
    ensures Fits(s, more)
    decreases |s|
  {
    if |s| > 1 { FitsLess(s[1..], max - Width(s[0]), more - Width(s[0])); }
  }

  lemma {:induction false} PrefixFits(s: string, k: nat, max: int)
    requires Fits(s, max) && k <= |s|
    ensures Fits(s[..k], max)
    decreases k
  {
    if k > 1 {
      assert s[..k][1..] == s[1..][..k - 1];
      PrefixFits(s[1..], k - 1, max - Width(s[0]));
    }
  }

  lemma {:induction false} SuffixFits(s: string, k: nat, max: int)
    requires Fits(s, max) && k <= |s|
    ensures Fits(s[k..], max)
    decreases k
  {
    if k > 0 && |s| > 1 {
      assert s[k..] == s[1..][k - 1..];
      FitsLess(s[1..], max - Width(s[0]), max);
      SuffixFits(s[1..], k - 1, max);
    }
  }

  lemma {:induction false} ShortFits(s: string, max: int)
    requires 4 * |s| <= max
    ensures Fits(s, max)
    decreases |s|
  {
    if |s| > 1 { ShortFits(s[1..], max - Width(s[0])); }
  }

  /** Trimming takes a piece out of the middle. */
  lemma TrimIsPiece(s: string) returns (from: nat, to: nat)
    ensures from <= to <= |s| && TrimSpace(s) == s[from..to]
  {
    TrimLeftStops(s);
    TrimRightStops(TrimLeft(s));
    from := |s| - |TrimLeft(s)|;
    to := from + |TrimSpace(s)|;
  }

  lemma TrimFits(s: string, max: int)
    requires Fits(s, max)
    ensures Fits(TrimSpace(s), max)
  {
    var from, to := TrimIsPiece(s);
    PrefixFits(s, to, max);
    SuffixFits(s[..to], from, max);
    assert s[..to][from..] == s[from..to];
  }

  // ---------------------------------------------------------------- tokens

  predicate TokenRune(u: Unicode, c: char) {
    c == '-' || c == '_' || u.isLetter(c) || u.isDigit(c)
  }

  function TokenRunes(u: Unicode, s: string): string {
    if s == "" then ""
    else if TokenRune(u, s[0]) then [s[0]] + TokenRunes(u, s[1..])
    else TokenRunes(u, s[1..])
  }

  /** What `sanitizeVirtualDesktopToken` returns. */
  function Token(u: Unicode, value: string, max: int): string {
    Cut(TokenRunes(u, TrimSpace(value)), max)
  }

  predicate AllTokenRunes(u: Unicode, s: string) {
    forall i :: 0 <= i < |s| ==> TokenRune(u, s[i])
  }

  lemma {:induction false} TokenRunesOnly(u: Unicode, s: string)
    ensures AllTokenRunes(u, TokenRunes(u, s))
    ensures AllTokenRunes(u, s) ==> TokenRunes(u, s) == s
    decreases |s|
  {
    if s != "" {
      TokenRunesOnly(u, s[1..]);
      if AllTokenRunes(u, s) {
        assert forall i :: 0 <= i < |s[1..]| ==> s[1..][i] == s[i + 1];
      }
    }
  }

  /** Sanitizing a token keeps hyphens, underscores, letters and digits, rune by rune. */
  lemma TokenOfOneRune(u: Unicode, c: char)
    ensures TokenRunes(u, [c]) == if c in {'-', '_'} || u.isLetter(c) || u.isDigit(c) then [c] else ""
  {
  }

  lemma {:induction false} TokenRunesSplit(u: Unicode, s: string, t: string)
    ensures TokenRunes(u, s + t) == TokenRunes(u, s) + TokenRunes(u, t)
    decreases |s|
  {
    if s == "" {
      assert s + t == t;
    } else {
      assert (s + t)[1..] == s[1..] + t;
      TokenRunesSplit(u, s[1..], t);
    }
  }

  /** Tokens are exactly the texts of token runes that fit; sanitizing leaves them alone. */
  lemma TokenIsFixed(u: Unicode, value: string, max: int)
    requires Sane(u)
    ensures AllTokenRunes(u, Token(u, value, max)) && Fits(Token(u, value, max), max)
    ensures AllTokenRunes(u, value) && Fits(value, max) ==> Token(u, value, max) == value
  {
    var runes := TokenRunes(u, TrimSpace(value));
    TokenRunesOnly(u, TrimSpace(value));
    CutFits(runes, max);
    if AllTokenRunes(u, value) {
      TokensAreTrimmed(u, value);
      TrimSpaceTrims(value);
    }
  }

  lemma TokensAreTrimmed(u: Unicode, s: string)
    requires Sane(u) && AllTokenRunes(u, s)
    ensures Trimmed(s)
  {
    assert s != "" ==> TokenRune(u, s[0]) && TokenRune(u, s[|s| - 1]);
  }

  // ---------------------------------------------------------------- printable text

  predicate LineBreakOrTab(c: char) {
    c == '\n' || c == '\r' || c == '\t'
  }

  /** Line breaks and tabs become spaces, other control characters go. */
  function Printable(s: string): string {
    if s == "" then ""
    else if LineBreakOrTab(s[0]) then " " + Printable(s[1..])
    else if IsControl(s[0]) then Printable(s[1..])
    else [s[0]] + Printable(s[1..])
  }

  /** Printing keeps ordinary runes, turns line breaks and tabs into blanks and drops other controls, rune by rune. */
  lemma PrintableOfOneRune(c: char)
    ensures Printable([c]) == if c in {'\n', '\r', '\t'} then " " else if IsControl(c) then "" else [c]
  {
  }

  lemma {:induction false} PrintableSplit(s: string, t: string)
    ensures Printable(s + t) == Printable(s) + Printable(t)
    decreases |s|
  {
    if s == "" {
      assert s + t == t;
    } else {
      assert (s + t)[1..] == s[1..] + t;
      PrintableSplit(s[1..], t);
    }
  }

  predicate NoControl(s: string) {
    forall i :: 0 <= i < |s| ==> !IsControl(s[i])
  }

  lemma {:induction false} PrintableHasNoControl(s: string)
    ensures NoControl(Printable(s))
    ensures NoControl(s) ==> Printable(s) == s
    decreases |s|
  {
    if s != "" {
      PrintableHasNoControl(s[1..]);
      if NoControl(s) {
        assert !IsControl(s[0]);
        assert forall i :: 0 <= i < |s[1..]| ==> s[1..][i] == s[i + 1];
      }
    }
  }

  /** `sanitizeVirtualDesktopMetadataValue`. */
  function MetadataValue(value: string, max: int): string {
    TrimSpace(Cut(Printable(TrimSpace(value)), max))
  }

  lemma MetadataValueIsFixed(value: string, max: int)
    ensures CleanValue(MetadataValue(value, max), max)
    ensures CleanValue(value, max) ==> MetadataValue(value, max) == value
  {
    var p := Printable(TrimSpace(value));
    PrintableHasNoControl(TrimSpace(value));
    CutFits(p, max);
    PieceHasNoControl(p, 0, |Cut(p, max)|);
    TrimmedIsClean(Cut(p, max), max);
    TrimSpaceTrims(value);
  }

  lemma PieceHasNoControl(s: string, from: nat, to: nat)
    requires NoControl(s) && from <= to <= |s|
    ensures NoControl(s[from..to])
  {
  }

  lemma TrimmedIsClean(s: string, max: int)
    requires NoControl(s) && Fits(s, max)
    ensures CleanValue(TrimSpace(s), max)
  {
    TrimFits(s, max);
    TrimSpaceTrims(s);
    var from, to := TrimIsPiece(s);
    PieceHasNoControl(s, from, to);
  }

  predicate CleanValue(s: string, max: int) {
    Trimmed(s) && NoControl(s) && Fits(s, max)
  }

  // ---------------------------------------------------------------- labels

  /** Runs of white space become one blank. */
  function Squeeze(s: string, afterSpace: bool): string {
    if s == "" then ""
    else if IsSpace(s[0]) then (if afterSpace then "" else " ") + Squeeze(s[1..], true)
    else [s[0]] + Squeeze(s[1..], false)
  }

  /** Squeezing keeps visible runes and turns the first white space after one into a blank, rune by rune. */
  lemma SqueezeOfOneRune(c: char, afterSpace: bool)
    ensures Squeeze([c], afterSpace) == if !IsSpace(c) then [c] else if afterSpace then "" else " "
  {
  }

  lemma {:induction false} SqueezeSplit(s: string, t: string, afterSpace: bool)
    ensures Squeeze(s + t, afterSpace)
            == Squeeze(s, afterSpace) + Squeeze(t, if s == "" then afterSpace else IsSpace(s[|s| - 1]))
    decreases |s|
  {
    if s == "" {
      assert s + t == t;
    } else {
      assert (s + t)[1..] == s[1..] + t;
      SqueezeSplit(s[1..], t, IsSpace(s[0]));
    }
  }

  predicate SingleSpaces(s: string) {
    forall i :: 0 <= i < |s| && IsSpace(s[i]) ==> s[i] == ' ' && (i + 1 < |s| ==> !IsSpace(s[i + 1]))
  }

  /** One more rune in front: a visible one, or a blank before a visible one. */
  lemma SpaceInFront(c: char, rest: string)
    requires SingleSpaces(rest) && NoControl(rest) && !IsControl(c)
    requires IsSpace(c) ==> c == ' ' && (rest != "" ==> !IsSpace(rest[0]))
    ensures SingleSpaces([c] + rest) && NoControl([c] + rest)
  {
    var t := [c] + rest;
    forall i | 0 <= i < |t| ensures !IsControl(t[i]) {
      if i > 0 { assert t[i] == rest[i - 1]; }
    }
    forall i | 0 <= i < |t| && IsSpace(t[i]) ensures t[i] == ' ' && (i + 1 < |t| ==> !IsSpace(t[i + 1])) {
      if i > 0 { assert t[i] == rest[i - 1]; }
    }
  }

  lemma {:induction false} SqueezeLeavesSingleSpaces(s: string, afterSpace: bool)
    requires NoControl(s)
    ensures var t := Squeeze(s, afterSpace);
            SingleSpaces(t) && NoControl(t) && (afterSpace && t != "" ==> !IsSpace(t[0]))
    decreases |s|
  {
    if s != "" {
      assert forall i :: 0 <= i < |s[1..]| ==> s[1..][i] == s[i + 1];
      assert !IsControl(s[0]);
      SqueezeLeavesSingleSpaces(s[1..], IsSpace(s[0]));
      var rest := Squeeze(s[1..], IsSpace(s[0]));
      if !(IsSpace(s[0]) && afterSpace) { SpaceInFront(if IsSpace(s[0]) then ' ' else s[0], rest); }
    }
  }

  lemma {:induction false} SingleSpacesStay(s: string, afterSpace: bool)
    requires SingleSpaces(s) && (afterSpace && s != "" ==> !IsSpace(s[0]))
    ensures Squeeze(s, afterSpace) == s
    decreases |s|
  {
    if s != "" {
      assert forall i :: 0 <= i < |s[1..]| ==> s[1..][i] == s[i + 1];
      SingleSpacesStay(s[1..], IsSpace(s[0]));
    }
  }

  /** `SanitizeDisplayLabel`. */
  function Label(value: string, max: int): string {
    TrimSpace(Cut(Squeeze(Printable(TrimSpace(value)), false), max))
  }

  predicate CleanLabel(s: string, max: int) {
    Trimmed(s) && NoControl(s) && SingleSpaces(s) && Fits(s, max)
  }

  lemma PieceIsClean(s: string, from: nat, to: nat)
    requires NoControl(s) && SingleSpaces(s) && from <= to <= |s|
    ensures NoControl(s[from..to]) && SingleSpaces(s[from..to])
  {
    var t := s[from..to];
    forall i | 0 <= i < |t| && IsSpace(t[i]) ensures t[i] == ' ' && (i + 1 < |t| ==> !IsSpace(t[i + 1])) {
      assert t[i] == s[from + i];
    }
  }

  lemma LabelIsClean(value: string, max: int)
    ensures CleanLabel(Label(value, max), max)
  {
    var p := Printable(TrimSpace(value));
    PrintableHasNoControl(TrimSpace(value));
    SqueezeLeavesSingleSpaces(p, false);
    var q := Squeeze(p, false);
    CutFits(q, max);
    var c := Cut(q, max);
    PieceIsClean(q, 0, |c|);
    TrimFits(c, max);
    TrimSpaceTrims(c);
    var from, to := TrimIsPiece(c);
    PieceIsClean(c, from, to);
  }

  lemma CleanLabelIsFixed(s: string, max: int)
    requires CleanLabel(s, max)
    ensures Label(s, max) == s
  {
    TrimSpaceTrims(s);
    PrintableHasNoControl(s);
    SingleSpacesStay(s, false);
    CutFits(s, max);
  }

  // ---------------------------------------------------------------- the loops

  method SanitizeToken(u: Unicode, value: string, max: int) returns (out: string)
    requires max > 0
    ensures out == Token(u, value, max)
  {
    var runes := TrimSpace(value);
    out := "";
    var size := 0;
    for i := 0 to |runes|
      invariant 0 <= size < max
      invariant out + Cut(TokenRunes(u, runes[i..]), max - size) == Token(u, value, max)
    {
      assert runes[i..][1..] == runes[i + 1..];
      if TokenRune(u, runes[i]) {
        out, size := out + [runes[i]], size + Width(runes[i]);
        if size >= max { return; }
      }
    }
    assert runes[|runes|..] == "";
  }

  /** What remains to be written of a label, read one rune at a time. */
  function Remaining(s: string, afterSpace: bool): string {
    Squeeze(Printable(s), afterSpace)
  }

  /** The rune as the loops see it: line breaks and tabs read as blanks. */
  function Seen(c: char): char {
    if LineBreakOrTab(c) then ' ' else c
  }

  lemma RemainingStep(s: string, afterSpace: bool)
    requires s != ""
    ensures var r := Seen(s[0]);
            Remaining(s, afterSpace)
            == if IsControl(r) || (IsSpace(r) && afterSpace) then Remaining(s[1..], afterSpace)
               else [if IsSpace(r) then ' ' else r] + Remaining(s[1..], IsSpace(r))
  {
    var p := Printable(s);
    if !IsControl(Seen(s[0])) {
      assert p == [Seen(s[0])] + Printable(s[1..]);
      assert p[1..] == Printable(s[1..]);
    }
  }

  /** Writing `c` brings the text closer to `whole`, or completes it. */
  lemma CutStep(text: string, c: char, rest: string, max: int, whole: string)
    requires text + Cut([c] + rest, max) == whole
    ensures if Width(c) >= max then text + [c] == whole else text + [c] + Cut(rest, max - Width(c)) == whole
  {
    assert ([c] + rest)[1..] == rest;
  }

  lemma PrintableStep(s: string)
    requires s != ""
    ensures Printable(s) == if IsControl(Seen(s[0])) then Printable(s[1..]) else [Seen(s[0])] + Printable(s[1..])
  {
  }

  method WritePrintable(runes: string, max: int) returns (text: string)
    requires max > 0
    ensures text == Cut(Printable(runes), max)
  {
    var size := 0;
    text := "";
    for i := 0 to |runes|
      invariant 0 <= size < max
      invariant text + Cut(Printable(runes[i..]), max - size) == Cut(Printable(runes), max)
    {
      assert runes[i..][1..] == runes[i + 1..];
      PrintableStep(runes[i..]);
      var r := Seen(runes[i]);
      if IsControl(r) { continue; }
      CutStep(text, r, Printable(runes[i + 1..]), max - size, Cut(Printable(runes), max));
      text, size := text + [r], size + Width(r);
      if size >= max { return; }
    }
    assert runes[|runes|..] == "";
  }

  method SanitizeMetadataValue(value: string, max: int) returns (out: string)
    requires max > 0
    ensures out == MetadataValue(value, max)
  {
    var text := WritePrintable(TrimSpace(value), max);
    out := TrimSpace(text);
  }

  method WriteLabel(runes: string, max: int) returns (text: string)
    requires max > 0
    ensures text == Cut(Remaining(runes, false), max)
  {
    ghost var whole := Cut(Remaining(runes, false), max);
    var size, lastSpace := 0, false;
    text := "";
    for i := 0 to |runes|
      invariant 0 <= size < max
      invariant text + Cut(Remaining(runes[i..], lastSpace), max - size) == whole
    {
      assert runes[i..][1..] == runes[i + 1..];
      RemainingStep(runes[i..], lastSpace);
      var r := Seen(runes[i]);
      if IsControl(r) || (IsSpace(r) && lastSpace) { continue; }
      lastSpace := IsSpace(r);
      if lastSpace { r := ' '; }
      CutStep(text, r, Remaining(runes[i + 1..], lastSpace), max - size, whole);
      text, size := text + [r], size + Width(r);
      if size >= max { return; }
    }
    assert runes[|runes|..] == "";
  }

  method SanitizeLabel(value: string, max: int) returns (out: string)
    requires max > 0
    ensures out == Label(value, max)
  {
    var text := WriteLabel(TrimSpace(value), max);
    out := TrimSpace(text);
  }
}

/**
 Labels for imported server profiles: a label is unused when its normalised key is, and the
 import loops pick labels one after another (backend/internal/httpapi/app.go). `lower` is the
 rune-wise lower-casing; all that is needed of it is that it leaves digits alone.
 */
module ImportLabels {
  import opened Text
  import opened Arithmetic

  // ---------------------------------------------------------------- normalised keys

  /** The length of the leading run of non-space characters. */
  function WordEnd(s: string): (n: nat)
    ensures n <= |s|
    ensures s != "" && !IsSpace(s[0]) ==> n > 0
    ensures n < |s| ==> IsSpace(s[n])
  {
    if s == "" || IsSpace(s[0]) then 0 else 1 + WordEnd(s[1..])
  }

  /** `strings.Fields`. */
  function Words(s: string): seq<string>
    decreases |s|
  {
    if s == "" then []
    else if IsSpace(s[0]) then Words(s[1..])
    else [s[..WordEnd(s)]] + Words(s[WordEnd(s)..])
  }

  function Join(words: seq<string>): string {
    if words == [] then "" else if |words| == 1 then words[0] else words[0] + " " + Join(words[1..])
  }

  /** `normalizeServerLabelKey`. */
  function Key(lower: char -> char, text: string): string {
    Lowered(lower, Join(Words(TrimSpace(text))))
  }

  ghost predicate KeepsDigits(lower: char -> char) {
    forall c :: '0' <= c <= '9' ==> lower(c) == c
  }

  // ---------------------------------------------------------------- decimals

  function Digit(d: nat): char
    requires d < 10
  {
    '0' + d as char
  }

  function Decimal(n: nat): (s: string)
    ensures s != "" && forall i :: 0 <= i < |s| ==> '0' <= s[i] <= '9'
  {
    if n < 10 then [Digit(n)] else Decimal(n / 10) + [Digit(n % 10)]
  }

  lemma {:induction false} DecimalIsInjective(m: nat, n: nat)
    requires Decimal(m) == Decimal(n)
    ensures m == n
  {
    var a, b := Decimal(m), Decimal(n);
    assert a[|a| - 1] == Digit(m % 10) && b[|b| - 1] == Digit(n % 10);
    if m >= 10 && n >= 10 {
      assert a[..|a| - 1] == Decimal(m / 10) && b[..|b| - 1] == Decimal(n / 10);
      DecimalIsInjective(m / 10, n / 10);
    }
  }

  // ---------------------------------------------------------------- words of concatenations

  /** Starts and ends with something other than white space. */
  predicate Solid(s: string) {
    s != "" && Trimmed(s)
  }

  lemma WordEndWithin(s: string, t: string)
    requires WordEnd(s) < |s|
    ensures WordEnd(s + t) == WordEnd(s)
    decreases |s|
  {
    if !IsSpace(s[0]) {
      assert (s + t)[1..] == s[1..] + t;
      WordEndWithin(s[1..], t);
    }
  }

  lemma WordEndAcross(s: string, t: string)
    requires WordEnd(s) == |s|
    ensures WordEnd(s + t) == |s| + WordEnd(t)
    decreases |s|
  {
    if s == "" {
      assert s + t == t;
    } else {
      assert (s + t)[1..] == s[1..] + t;
      WordEndAcross(s[1..], t);
    }
  }

  lemma {:induction false} WordsNotEmpty(s: string)
    requires s != "" && !IsSpace(s[|s| - 1])
    ensures Words(s) != []
    decreases |s|
  {
    if IsSpace(s[0]) { WordsNotEmpty(s[1..]); }
  }

  lemma WordsUnfold(s: string, n: nat)
    requires s != "" && !IsSpace(s[0]) && n == WordEnd(s)
    ensures Words(s) == [s[..n]] + Words(s[n..])
  {
  }

  lemma PiecesOfConcat(s: string, t: string, n: nat)
    requires n <= |s|
    ensures (s + t)[..n] == s[..n] && (s + t)[n..] == s[n..] + t
  {
  }

  /** A word after a space is the last word. */
  lemma {:induction false} WordsOfSpaced(s: string, d: string)
    requires s != "" && !IsSpace(s[|s| - 1])
    requires d != "" && WordEnd(d) == |d|
    ensures Words(s + (" " + d)) == Words(s) + [d]
    decreases |s|
  {
    var n := WordEnd(s);
    if IsSpace(s[0]) {
      PiecesOfConcat(s, " " + d, 1);
      WordsOfSpaced(s[1..], d);
    } else {
      PiecesOfConcat(s, " " + d, n);
      WordsUnfold(s, n);
      WordsUnfold(s + (" " + d), n) by {
        if n < |s| { WordEndWithin(s, " " + d); } else { WordEndAcross(s, " " + d); }
      }
      if n < |s| { WordsOfSpaced(s[n..], d); } else { SpaceThenWord(d); }
    }
  }

  /** White space between two texts keeps their words apart, and is no part of them. */
  lemma {:induction false} WordsSplitAtSpace(s: string, c: char, t: string)
    requires IsSpace(c)
    ensures Words(s + ([c] + t)) == Words(s) + Words(t)
    decreases |s|
  {
    var n, rest := WordEnd(s), [c] + t;
    assert rest[1..] == t;
    if s == "" {
      assert s + rest == rest;
    } else if IsSpace(s[0]) {
      PiecesOfConcat(s, rest, 1);
      WordsSplitAtSpace(s[1..], c, t);
    } else {
      PiecesOfConcat(s, rest, n);
      WordsUnfold(s, n);
      WordsUnfold(s + rest, n) by {
        if n < |s| { WordEndWithin(s, rest); } else { WordEndAcross(s, rest); }
      }
      WordsSplitAtSpace(s[n..], c, t);
    }
  }

  lemma OneWord(d: string)
    requires d != "" && WordEnd(d) == |d|
    ensures Words(d) == [d]
  {
    assert d[..|d|] == d && d[|d|..] == "";
  }

  lemma SpaceThenWord(d: string)
    requires d != "" && WordEnd(d) == |d|
    ensures Words(" " + d) == [d]
  {
    OneWord(d);
    assert (" " + d)[1..] == d;
  }

  lemma {:induction false} JoinWithLast(words: seq<string>, d: string)
    requires words != []
    ensures Join(words + [d]) == Join(words) + " " + d
    decreases |words|
  {
    if |words| > 1 {
      assert (words + [d])[1..] == words[1..] + [d];
      JoinWithLast(words[1..], d);
    } else {
      assert (words + [d])[1..] == [d];
    }
  }

  /** What the words after the first add to the joined length. */
  function AfterFirst(later: seq<string>): nat {
    if later == [] then 0 else 1 + |Join(later)|
  }

  lemma JoinLength(word: string, words: seq<string>)
    ensures |Join([word] + words)| == |word| + (if words == [] then 0 else 1 + |Join(words)|)
  {
    assert ([word] + words)[1..] == words;
  }

  lemma JoinedWords(s: string)
    requires s != "" && !IsSpace(s[0])
    ensures var later := Words(s[WordEnd(s)..]);
            |Join(Words(s))| == WordEnd(s) + AfterFirst(later)
  {
    JoinLength(s[..WordEnd(s)], Words(s[WordEnd(s)..]));
  }

  lemma LoneWordLength(s: string)
    requires s != "" && WordEnd(s) == |s|
    ensures |Join(Words(s))| == |s|
  {
    OneWord(s);
  }

  lemma TailOfConcat(s: string, t: string, n: nat)
    requires n <= |t|
    ensures (s + t)[|s| + n..] == t[n..]
  {
  }

  lemma JoinedAs(s: string, n: nat, rest: string)
    requires s != "" && !IsSpace(s[0]) && n == WordEnd(s) && rest == s[n..]
    ensures |Join(Words(s))| == n + AfterFirst(Words(rest))
  {
    JoinedWords(s);
  }

  lemma GluedToOneWord(s: string, t: string)
    requires s != "" && WordEnd(s) == |s| && t != "" && !IsSpace(t[0])
    ensures |Join(Words(s + t))| == |Join(Words(s))| + |Join(Words(t))|
  {
    var n, rest := WordEnd(t), t[WordEnd(t)..];
    LoneWordLength(s);
    JoinedAs(t, n, rest);
    JoinedAs(s + t, |s| + n, rest) by {
      WordEndAcross(s, t);
      TailOfConcat(s, t, n);
    }
  }

  /** The lengths add up if they do after the first word. */
  lemma GluedAfterWord(s: string, t: string)
    requires s != "" && !IsSpace(s[0]) && WordEnd(s) < |s|
    requires var rest := s[WordEnd(s)..];
             Words(rest) != [] && Words(rest + t) != []
             && |Join(Words(rest + t))| == |Join(Words(rest))| + |Join(Words(t))|
    ensures |Join(Words(s + t))| == |Join(Words(s))| + |Join(Words(t))|
  {
    var n := WordEnd(s);
    WordEndWithin(s, t);
    PiecesOfConcat(s, t, n);
    JoinedWords(s);
    JoinedWords(s + t);
  }

  /** Gluing two solid texts glues their normal forms: nothing but the shared word changes. */
  lemma {:induction false} GluedLength(s: string, t: string)
    requires s != "" && !IsSpace(s[|s| - 1]) && t != "" && !IsSpace(t[0])
    ensures |Join(Words(s + t))| == |Join(Words(s))| + |Join(Words(t))|
    ensures Words(s + t) != []
    decreases |s|
  {
    var n := WordEnd(s);
    if IsSpace(s[0]) {
      PiecesOfConcat(s, t, 1);
      GluedLength(s[1..], t);
    } else if n < |s| {
      WordsNotEmpty(s[n..]);
      GluedLength(s[n..], t);
      GluedAfterWord(s, t);
    } else {
      GluedToOneWord(s, t);
    }
  }

  // ---------------------------------------------------------------- candidates

  function UserScoped(base: string, username: string): string {
    (if TrimSpace(username) == "" then "user" else TrimSpace(username)) + "@" + base
  }

  const CANDIDATES: nat := 10000

  /** The labels tried, in order: the base, the user-scoped base, and that with indices 2, 3, ... 9999. */
  function Candidate(base: string, scoped: string, k: nat): string {
    if k == 0 then base else if k == 1 then scoped else scoped + " " + Decimal(k)
  }

  /** All ten thousand candidates have different keys. */
  ghost predicate Separates(key: string -> string, base: string, scoped: string) {
    forall j: nat, k: nat :: j < k ==> key(Candidate(base, scoped, j)) != key(Candidate(base, scoped, k))
  }

  ghost predicate SeparatesAll(key: string -> string) {
    forall base, username :: Solid(base) ==> Separates(key, base, UserScoped(base, username))
  }

  lemma {:induction false} DigitsAreOneWord(s: string)
    requires forall i :: 0 <= i < |s| ==> '0' <= s[i] <= '9'
    ensures WordEnd(s) == |s|
    ensures s != "" ==> Solid(s)
  {
    if s != "" { DigitsAreOneWord(s[1..]); }
  }

  lemma UserScopedIsSolid(base: string, username: string)
    requires Solid(base)
    ensures Solid(UserScoped(base, username))
    ensures |Join(Words(UserScoped(base, username)))| > |Join(Words(base))|
  {
    var user := if TrimSpace(username) == "" then "user" else TrimSpace(username);
    TrimSpaceTrims(username);
    assert Solid(user);
    var scoped := UserScoped(base, username);
    assert scoped == user + ("@" + base);
    assert scoped[0] == user[0] && scoped[|scoped| - 1] == base[|base| - 1];
    ScopedLength(user, base);
  }

  lemma ScopedLength(user: string, base: string)
    requires Solid(user) && Solid(base)
    ensures |Join(Words(user + ("@" + base)))| > |Join(Words(base))|
  {
    GluedLength(user, "@" + base);
    GluedLength("@", base);
    AtSign();
  }

  lemma AtSign()
    ensures Words("@") == ["@"] && |Join(Words("@"))| == 1
  {
    assert WordEnd("@") == 1;
    assert "@"[..1] == "@" && "@"[1..] == "";
  }

  lemma KeyOfSolid(lower: char -> char, s: string)
    requires Solid(s)
    ensures Key(lower, s) == Lowered(lower, Join(Words(s)))
  {
    TrimSpaceTrims(s);
  }

  lemma LoweredConcat(lower: char -> char, a: string, b: string)
    ensures Lowered(lower, a + b) == Lowered(lower, a) + Lowered(lower, b)
  {
  }

  lemma LoweredDigits(lower: char -> char, d: string)
    requires KeepsDigits(lower) && forall i :: 0 <= i < |d| ==> '0' <= d[i] <= '9'
    ensures Lowered(lower, d) == d
  {
  }

  lemma SpacedIsSolid(s: string, d: string)
    requires Solid(s) && Solid(d)
    ensures Solid(s + " " + d)
  {
    var whole := s + " " + d;
    assert whole[0] == s[0] && whole[|whole| - 1] == d[|d| - 1];
  }

  lemma JoinOfSpaced(s: string, d: string)
    requires Solid(s) && d != "" && WordEnd(d) == |d|
    ensures Join(Words(s + " " + d)) == Join(Words(s)) + " " + d
  {
    assert s + " " + d == s + (" " + d);
    WordsOfSpaced(s, d);
    WordsNotEmpty(s);
    JoinWithLast(Words(s), d);
  }

  lemma LoweredSpaced(lower: char -> char, stem: string, d: string)
    requires KeepsDigits(lower) && forall i :: 0 <= i < |d| ==> '0' <= d[i] <= '9'
    ensures Lowered(lower, stem + " " + d) == Lowered(lower, stem + " ") + d
  {
    LoweredConcat(lower, stem + " ", d);
    LoweredDigits(lower, d);
  }

  /** The key of an indexed label is the key of its stem, a separator, and the digits. */
  lemma IndexedKey(lower: char -> char, scoped: string, k: nat)
    requires KeepsDigits(lower) && Solid(scoped)
    ensures Key(lower, scoped + " " + Decimal(k)) == Lowered(lower, Join(Words(scoped)) + " ") + Decimal(k)
  {
    var d := Decimal(k);
    DigitsAreOneWord(d);
    SpacedIsSolid(scoped, d);
    KeyOfSolid(lower, scoped + " " + d);
    JoinOfSpaced(scoped, d);
    LoweredSpaced(lower, Join(Words(scoped)), d);
  }

  lemma SameStem(stem: string, a: string, b: string)
    requires stem + a == stem + b
    ensures a == b
  {
    assert a == (stem + a)[|stem|..] && b == (stem + b)[|stem|..];
  }

  lemma CandidatesDiffer(lower: char -> char, base: string, scoped: string, j: nat, k: nat)
    requires KeepsDigits(lower) && Solid(base) && Solid(scoped) && j < k
    requires |Join(Words(scoped))| > |Join(Words(base))|
    ensures Key(lower, Candidate(base, scoped, j)) != Key(lower, Candidate(base, scoped, k))
  {
    if j < 2 { KeyOfSolid(lower, Candidate(base, scoped, j)); }
    if k < 2 {
      KeyOfSolid(lower, scoped);
    } else {
      IndexedKey(lower, scoped, k);
      if j >= 2 {
        IndexedKey(lower, scoped, j);
        if Key(lower, Candidate(base, scoped, j)) == Key(lower, Candidate(base, scoped, k)) {
          SameStem(Lowered(lower, Join(Words(scoped)) + " "), Decimal(j), Decimal(k));
          DecimalIsInjective(j, k);
        }
      }
    }
  }

  /** `normalizeServerLabelKey` separates the candidates of every base and user. */
  lemma NormalizedKeysSeparate(lower: char -> char)
    requires KeepsDigits(lower)
    ensures SeparatesAll(s => Key(lower, s))
  {
    var key := s => Key(lower, s);
    forall base, username | Solid(base) ensures Separates(key, base, UserScoped(base, username)) {
      UserScopedIsSolid(base, username);
      var scoped := UserScoped(base, username);
      forall j: nat, k: nat | j < k ensures key(Candidate(base, scoped, j)) != key(Candidate(base, scoped, k)) {
        CandidatesDiffer(lower, base, scoped, j, k);
      }
    }
  }

  /** The number that a text of digits stands for. */
  function ValueOf(s: string): nat
    requires forall i :: 0 <= i < |s| ==> '0' <= s[i] <= '9'
  {
    if s == "" then 0 else 10 * ValueOf(s[..|s| - 1]) + (s[|s| - 1] - '0') as nat
  }

  /** A printed number reads back, and has no leading zero. */
  lemma {:induction false} DecimalReadsBack(n: nat)
    ensures ValueOf(Decimal(n)) == n && (n > 0 ==> Decimal(n)[0] != '0')
  {
    if n >= 10 {
      DecimalReadsBack(n / 10);
      assert Decimal(n)[..|Decimal(n)| - 1] == Decimal(n / 10);
    } else {
      assert Decimal(n)[..0] == "";
    }
  }

  /** The labels tried: the base; the user, an at sign and the base; and that with a blank and an index from 2 on. */
  lemma CandidatesSay(base: string, username: string, k: nat)
    ensures var user := if Blank(username) then "user" else TrimSpace(username);
            var tried := Candidate(base, UserScoped(base, username), k);
            && (k == 0 ==> tried == base)
            && (k == 1 ==> tried == user + "@" + base)
            && (k >= 2 ==> tried == user + "@" + base + " " + Decimal(k))
  {
    BlankMeansNothingLeft(username);
  }

  // ---------------------------------------------------------------- choosing labels

  /** `k` is the first free candidate. */
  predicate FirstFree(key: string -> string, base: string, scoped: string, used: set<string>, k: nat) {
    && key(Candidate(base, scoped, k)) !in used
    && forall j: nat :: j < k ==> key(Candidate(base, scoped, j)) in used
  }

  predicate AllTaken(key: string -> string, base: string, scoped: string, used: set<string>) {
    forall k: nat :: k < CANDIDATES ==> key(Candidate(base, scoped, k)) in used
  }

  /** The first free candidate, or a time-stamped label when all ten thousand are taken. */
  ghost predicate Chosen(key: string -> string, base: string, scoped: string, used: set<string>, stamp: nat,
                         text: string)
  {
    if AllTaken(key, base, scoped, used) then text == scoped + " " + Decimal(stamp)
    else exists k: nat :: k < CANDIDATES && FirstFree(key, base, scoped, used, k) && text == Candidate(base, scoped, k)
  }

  /** Fewer than ten thousand used keys leave a candidate free, and a free one is chosen. */
  lemma ChosenLabelIsFresh(key: string -> string, base: string, scoped: string, used: set<string>, stamp: nat,
                           text: string)
    requires Separates(key, base, scoped) && |used| < CANDIDATES && base != ""
    requires Chosen(key, base, scoped, used, stamp, text)
    ensures key(text) !in used
    ensures scoped != "" ==> text != ""
  {
    if AllTaken(key, base, scoped, used) {
      Pigeonhole((k: nat) => key(Candidate(base, scoped, k)), CANDIDATES, used);
    }
  }

  method Choose(key: string -> string, base: string, scoped: string, used: set<string>, stamp: nat)
      returns (text: string)
    ensures Chosen(key, base, scoped, used, stamp, text)
  {
    if key(base) !in used {
      assert FirstFree(key, base, scoped, used, 0);
      return base;
    }
    if key(scoped) !in used {
      assert FirstFree(key, base, scoped, used, 1);
      return scoped;
    }
    for index := 2 to 10000
      invariant forall k: nat :: k < index ==> key(Candidate(base, scoped, k)) in used
    {
      var candidate := scoped + " " + Decimal(index);
      assert candidate == Candidate(base, scoped, index);
      if key(candidate) !in used {
        assert FirstFree(key, base, scoped, used, index);
        return candidate;
      }
    }
    return scoped + " " + Decimal(stamp);
  }

  /** `uniqueImportedServerLabel`; `stamp` is the clock of the fallback. */
  method UniqueImportedServerLabel(key: string -> string, baseLabel: string, username: string, used: set<string>,
                                   stamp: nat)
      returns (text: string)
    ensures TrimSpace(baseLabel) == "" <==> text == ""
    ensures TrimSpace(baseLabel) != "" ==>
              Chosen(key, TrimSpace(baseLabel), UserScoped(TrimSpace(baseLabel), username), used, stamp, text)
    ensures TrimSpace(baseLabel) != "" && SeparatesAll(key) && |used| < CANDIDATES ==> key(text) !in used
  {
    var base := TrimSpace(baseLabel);
    if base == "" { return ""; }
    TrimSpaceTrims(baseLabel);
    var scoped := UserScoped(base, username);
    text := Choose(key, base, scoped, used, stamp);
    assert text != "";
    if SeparatesAll(key) && |used| < CANDIDATES {
      assert Separates(key, base, scoped);
      ChosenLabelIsFresh(key, base, scoped, used, stamp, text);
    }
  }

  datatype Profile = Profile(name: string, username: string)

  predicate Nameless(p: Profile) {
    TrimSpace(p.name) == ""
  }

  /** Labels with different keys, none of them in `used`; nameless profiles get none. */
  predicate Fresh(key: string -> string, used: set<string>, labels: seq<string>) {
    && (forall i :: 0 <= i < |labels| && labels[i] != "" ==> key(labels[i]) !in used)
    && (forall i, j :: 0 <= i < j < |labels| && labels[i] != "" && labels[j] != "" ==> key(labels[i]) != key(labels[j]))
  }

  lemma FreshGrows(key: string -> string, existing: set<string>, used: set<string>, labels: seq<string>, next: string)
    requires Fresh(key, existing, labels) && existing <= used
    requires forall j :: 0 <= j < |labels| && labels[j] != "" ==> key(labels[j]) in used
    requires next != "" ==> key(next) !in used
    ensures Fresh(key, existing, labels + [next])
  {
  }

  /** The keys in use once `labels` have been chosen. */
  function UsedAfter(key: string -> string, existing: set<string>, labels: seq<string>): set<string> {
    if labels == [] then existing
    else
      var last := labels[|labels| - 1];
      UsedAfter(key, existing, labels[..|labels| - 1]) + if last == "" then {} else {key(last)}
  }

  /** Label `i` is what its profile gets, given the labels before it. */
  ghost predicate ChosenFor(key: string -> string, profiles: seq<Profile>, existing: set<string>, stamp: nat,
                            labels: seq<string>, i: nat)
    requires i < |labels| && i < |profiles|
  {
    if Nameless(profiles[i]) then labels[i] == ""
    else
      var base := TrimSpace(profiles[i].name);
      Chosen(key, base, UserScoped(base, profiles[i].username), UsedAfter(key, existing, labels[..i]), stamp, labels[i])
  }

  ghost predicate AllChosen(key: string -> string, profiles: seq<Profile>, existing: set<string>, stamp: nat,
                            labels: seq<string>)
    requires |labels| <= |profiles|
  {
    forall i :: 0 <= i < |labels| ==> ChosenFor(key, profiles, existing, stamp, labels, i)
  }

  lemma OneMoreChosen(key: string -> string, profiles: seq<Profile>, existing: set<string>, stamp: nat,
                      labels: seq<string>, next: string)
    requires |labels| < |profiles| && AllChosen(key, profiles, existing, stamp, labels)
    requires var p := profiles[|labels|];
             if Nameless(p) then next == ""
             else Chosen(key, TrimSpace(p.name), UserScoped(TrimSpace(p.name), p.username),
                         UsedAfter(key, existing, labels), stamp, next)
    ensures AllChosen(key, profiles, existing, stamp, labels + [next])
    ensures UsedAfter(key, existing, labels + [next])
            == UsedAfter(key, existing, labels) + if next == "" then {} else {key(next)}
  {
    var longer := labels + [next];
    assert longer[..|labels|] == labels;
    forall i | 0 <= i < |longer| ensures ChosenFor(key, profiles, existing, stamp, longer, i) {
      if i < |labels| {
        assert ChosenFor(key, profiles, existing, stamp, labels, i);
        assert longer[..i] == labels[..i];
      }
    }
  }

  /** A chosen label is never blank. */
  lemma ChosenIsNotBlank(key: string -> string, base: string, username: string, used: set<string>, stamp: nat,
                         text: string)
    requires base != "" && Chosen(key, base, UserScoped(base, username), used, stamp, text)
    ensures text != ""
  {
  }

  /** What the loop keeps up to now: the labels are fresh, and their keys used up. */
  ghost predicate FreshSoFar(key: string -> string, existing: set<string>, labels: seq<string>) {
    var used := UsedAfter(key, existing, labels);
    && Fresh(key, existing, labels) && existing <= used && |used| <= |existing| + |labels|
    && forall j :: 0 <= j < |labels| && labels[j] != "" ==> key(labels[j]) in used
  }

  lemma OneMoreFresh(key: string -> string, existing: set<string>, labels: seq<string>, next: string)
    requires FreshSoFar(key, existing, labels)
    requires next != "" ==> key(next) !in UsedAfter(key, existing, labels)
    ensures FreshSoFar(key, existing, labels + [next])
  {
    assert (labels + [next])[..|labels|] == labels;
    FreshGrows(key, existing, UsedAfter(key, existing, labels), labels, next);
  }

  /** Labels chosen one after another have pairwise different keys, none of them in use before. */
  lemma {:induction false} ChosenLabelsAreFresh(key: string -> string, profiles: seq<Profile>, existing: set<string>,
                                                stamp: nat, labels: seq<string>)
    requires |labels| <= |profiles| && AllChosen(key, profiles, existing, stamp, labels)
    requires SeparatesAll(key) && |existing| + |labels| <= CANDIDATES
    ensures FreshSoFar(key, existing, labels)
    decreases |labels|
  {
    if labels != [] {
      var n := |labels| - 1;
      var before, next := labels[..n], labels[n];
      assert labels == before + [next];
      FewerChosen(key, profiles, existing, stamp, labels);
      ChosenLabelsAreFresh(key, profiles, existing, stamp, before);
      NextIsFresh(key, profiles, existing, stamp, labels);
      OneMoreFresh(key, existing, before, next);
    }
  }

  lemma FewerChosen(key: string -> string, profiles: seq<Profile>, existing: set<string>, stamp: nat,
                    labels: seq<string>)
    requires 0 < |labels| <= |profiles| && AllChosen(key, profiles, existing, stamp, labels)
    ensures AllChosen(key, profiles, existing, stamp, labels[..|labels| - 1])
  {
    var before := labels[..|labels| - 1];
    forall i | 0 <= i < |before| ensures ChosenFor(key, profiles, existing, stamp, before, i) {
      assert ChosenFor(key, profiles, existing, stamp, labels, i);
      assert before[..i] == labels[..i];
    }
  }

  lemma NextIsFresh(key: string -> string, profiles: seq<Profile>, existing: set<string>, stamp: nat,
                    labels: seq<string>)
    requires 0 < |labels| <= |profiles| && AllChosen(key, profiles, existing, stamp, labels) && SeparatesAll(key)
    requires var before := labels[..|labels| - 1];
             FreshSoFar(key, existing, before) && |existing| + |before| < CANDIDATES
    ensures var next := labels[|labels| - 1];
            next != "" ==> key(next) !in UsedAfter(key, existing, labels[..|labels| - 1])
  {
    var n := |labels| - 1;
    var p, used := profiles[n], UsedAfter(key, existing, labels[..n]);
    assert ChosenFor(key, profiles, existing, stamp, labels, n);
    if !Nameless(p) {
      var base := TrimSpace(p.name);
      TrimSpaceTrims(p.name);
      assert Separates(key, base, UserScoped(base, p.username));
      ChosenLabelIsFresh(key, base, UserScoped(base, p.username), used, stamp, labels[n]);
    }
  }

  /** The scan and import loops: each chosen label is used up before the next is chosen. */
  method AssignLabels(key: string -> string, profiles: seq<Profile>, existing: set<string>, stamp: nat)
      returns (labels: seq<string>)
    ensures |labels| == |profiles|
    ensures AllChosen(key, profiles, existing, stamp, labels)
    ensures forall i :: 0 <= i < |labels| ==> (labels[i] == "" <==> Nameless(profiles[i]))
    ensures SeparatesAll(key) && |existing| + |profiles| <= CANDIDATES ==> Fresh(key, existing, labels)
  {
    labels := [];
    var used := existing;
    for i := 0 to |profiles|
      invariant |labels| == i && used == UsedAfter(key, existing, labels)
      invariant AllChosen(key, profiles, existing, stamp, labels)
    {
      var next := UniqueImportedServerLabel(key, profiles[i].name, profiles[i].username, used, stamp);
      OneMoreChosen(key, profiles, existing, stamp, labels, next);
      labels := labels + [next];
      if next != "" { used := used + {key(next)}; }
    }
    forall i | 0 <= i < |labels| ensures labels[i] == "" <==> Nameless(profiles[i]) {
      BlankExactlyIfNameless(key, profiles, existing, stamp, labels, i);
    }
    if SeparatesAll(key) && |existing| + |profiles| <= CANDIDATES {
      ChosenLabelsAreFresh(key, profiles, existing, stamp, labels);
    }
  }

  lemma BlankExactlyIfNameless(key: string -> string, profiles: seq<Profile>, existing: set<string>, stamp: nat,
                               labels: seq<string>, i: nat)
    requires i < |labels| <= |profiles| && ChosenFor(key, profiles, existing, stamp, labels, i)
    ensures labels[i] == "" <==> Nameless(profiles[i])
  {
    var base := TrimSpace(profiles[i].name);
    if base != "" {
      ChosenIsNotBlank(key, base, profiles[i].username, UsedAfter(key, existing, labels[..i]), stamp, labels[i]);
    }
  }
}

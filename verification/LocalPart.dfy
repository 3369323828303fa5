/** The mailbox names of control_plane/email/local_part.py: whatever a family is called, what is suggested
    is a name that may be used, and so is every numbered variant of it. */
module LocalPart {
  import opened Basics

  predicate Alnum(c: char) { 'a' <= c <= 'z' || '0' <= c <= '9' }

  predicate Separator(c: char) { c in {'.', '_', '-'} }

  // `^[a-z0-9]+(?:[._-][a-z0-9]+)*$`: letters and digits, with single separators inside.
  predicate LocalForm(s: string) {
    && s != ""
    && (forall i | 0 <= i < |s| :: Alnum(s[i]) || Separator(s[i]))
    && Alnum(s[0]) && Alnum(s[|s| - 1])
    && (forall i | 0 <= i < |s| - 1 :: !(Separator(s[i]) && Separator(s[i + 1])))
  }

  // The expression itself, as a grammar: a run of letters and digits, alone or before a separator and more.
  ghost predicate LettersOnly(s: string) {
    s != "" && forall c | c in s :: 'a' <= c <= 'z' || '0' <= c <= '9'
  }

  ghost predicate Spelled(s: string) {
    || LettersOnly(s)
    || exists i | 0 < i < |s| ::
         LettersOnly(s[..i]) && (s[i] == '.' || s[i] == '_' || s[i] == '-') && Spelled(s[i + 1..])
  }

  // The first separator, where there is one.
  lemma {:induction false} FirstSeparator(s: string) returns (i: nat)
    requires forall k | 0 <= k < |s| :: Alnum(s[k]) || Separator(s[k])
    ensures i <= |s| && (forall k | 0 <= k < i :: Alnum(s[k])) && (i < |s| ==> Separator(s[i]))
  {
    i := 0;
    while i < |s| && Alnum(s[i])
      invariant i <= |s| && forall k | 0 <= k < i :: Alnum(s[k])
    {
      i := i + 1;
    }
  }

  // Every character, and every two neighbours, of a tail are those of the whole.
  lemma TailForm(s: string, n: nat)
    requires n < |s| && Separator(s[n]) && LocalForm(s)
    ensures LocalForm(s[n + 1..])
  {
    var tail := s[n + 1..];
    assert Alnum(s[|s| - 1]) && n < |s| - 1;
    assert !(Separator(s[n]) && Separator(s[n + 1]));
    forall k | 0 <= k < |tail|
      ensures Alnum(tail[k]) || Separator(tail[k])
      ensures k < |tail| - 1 ==> !(Separator(tail[k]) && Separator(tail[k + 1]))
    {
      var at := n + 1 + k;
      assert tail[k] == s[at] && (k < |tail| - 1 ==> tail[k + 1] == s[at + 1]);
    }
  }

  lemma WholeForm(s: string, n: nat)
    requires 0 < n < |s| && Separator(s[n]) && LettersOnly(s[..n]) && LocalForm(s[n + 1..])
    ensures LocalForm(s)
  {
    var head, tail := s[..n], s[n + 1..];
    forall k | 0 <= k < |s|
      ensures Alnum(s[k]) || Separator(s[k])
      ensures k <= n - 1 ==> Alnum(s[k])
      ensures k > n ==> s[k] == tail[k - n - 1]
    {
      if k < n {
        assert s[k] == head[k] && head[k] in head;
      } else if k > n {
        assert s[k] == tail[k - n - 1];
      }
    }
    forall k | 0 <= k < |s| - 1
      ensures !(Separator(s[k]) && Separator(s[k + 1]))
    {
      if k > n {
        var at := k - n - 1;
        assert !(Separator(tail[at]) && Separator(tail[at + 1]));
      } else if k == n {
        assert s[k + 1] == tail[0];
      }
    }
    assert s[|s| - 1] == tail[|tail| - 1];
  }

  /** What is read character by character is what the expression matches. */
  lemma {:induction false} FormIsSpelled(s: string)
    ensures LocalForm(s) <==> Spelled(s)
    decreases |s|
  {
    forall i | 0 < i < |s|
               && LettersOnly(s[..i]) && (s[i] == '.' || s[i] == '_' || s[i] == '-')
      ensures LocalForm(s) <==> Spelled(s[i + 1..])
    {
      FormIsSpelled(s[i + 1..]);
      if LocalForm(s) {
        TailForm(s, i);
      }
      if LocalForm(s[i + 1..]) {
        WholeForm(s, i);
      }
    }
    if LocalForm(s) {
      var i := FirstSeparator(s);
      assert i > 0;
      assert LettersOnly(s[..i]);
      if i == |s| {
        assert s[..i] == s;
      }
    } else if LettersOnly(s) {
      assert forall k | 0 <= k < |s| :: s[k] in s;
    }
  }

  const RESERVED: set<string> := {
    "abuse", "admin", "billing", "hello", "no-reply", "noreply", "postmaster", "privacy", "security", "support",
    "team", "webmaster"
  }

  predicate Valid(s: string) {
    3 <= |s| <= 48 && LocalForm(s) && s !in RESERVED
  }

  // The lower-case letters а to я and ё, and how each is written.
  const CYRILLIC: map<char, string> := map[
    '\U{0430}' := "a", '\U{0431}' := "b", '\U{0432}' := "v", '\U{0433}' := "g", '\U{0434}' := "d", '\U{0435}' := "e",
    '\U{0451}' := "e", '\U{0436}' := "zh", '\U{0437}' := "z", '\U{0438}' := "i", '\U{0439}' := "i", '\U{043a}' := "k",
    '\U{043b}' := "l", '\U{043c}' := "m", '\U{043d}' := "n", '\U{043e}' := "o", '\U{043f}' := "p", '\U{0440}' := "r",
    '\U{0441}' := "s", '\U{0442}' := "t", '\U{0443}' := "u", '\U{0444}' := "f", '\U{0445}' := "kh", '\U{0446}' := "ts",
    '\U{0447}' := "ch", '\U{0448}' := "sh", '\U{0449}' := "shch", '\U{044a}' := "", '\U{044b}' := "y", '\U{044c}' := "",
    '\U{044d}' := "e", '\U{044e}' := "yu", '\U{044f}' := "ya"
  ]

  // Unicode, as far as it is used: NFKD then casefold, the categories M*, and strip then casefold.
  datatype Unicode = Unicode(fold: string -> string, mark: char -> bool, tidy: string -> string)

  // Plain text: what folding and tidying leave alone.
  predicate Plain(s: string) {
    forall i | 0 <= i < |s| :: Alnum(s[i]) || Separator(s[i])
  }

  ghost predicate Lawful(u: Unicode) {
    && (forall s, i | 0 <= i < |u.fold(s)| :: !('A' <= u.fold(s)[i] <= 'Z'))
    && (forall s | Plain(s) :: u.fold(s) == s && u.tidy(s) == s)
  }

  // ---- transliteration ----

  predicate AsciiAlnum(c: char) { Alnum(c) || 'A' <= c <= 'Z' }

  function Letter(u: Unicode, c: char): (s: string) {
    if c in CYRILLIC then CYRILLIC[c] else if AsciiAlnum(c) then [c] else if u.mark(c) then "" else "_"
  }

  function Letters(u: Unicode, s: string): (r: string)
    decreases |s|
  {
    if s == "" then "" else Letters(u, s[..|s| - 1]) + Letter(u, s[|s| - 1])
  }

  // `re.sub(r"_+", "_", ..)`.
  function Squeezed(s: string): (r: string)
    decreases |s|
  {
    if |s| < 2 then s
    else if s[0] == '_' && s[1] == '_' then Squeezed(s[1..])
    else [s[0]] + Squeezed(s[1..])
  }

  function Cleaned(letters: string): (r: string) {
    StripRight(StripLeft(Squeezed(letters), {'_'}), {'_'})
  }

  lemma {:induction false} SqueezedWord(w: string, x: string)
    requires w != "" && '_' !in w
    ensures Squeezed(w + x) == w + Squeezed(x)
    decreases |w|
  {
    var s := w + x;
    assert s[0] == w[0] && w[0] in w && s[1..] == w[1..] + x;
    if |w| == 1 {
      assert s[1..] == x;
      assert Squeezed(s) == [w[0]] + Squeezed(x);
    } else {
      SqueezedWord(w[1..], x);
      assert w + Squeezed(x) == [w[0]] + (w[1..] + Squeezed(x));
    }
  }

  lemma {:induction false} SqueezedGap(x: string)
    ensures Squeezed("_" + x) == "_" + StripLeft(Squeezed(x), {'_'})
    ensures StripLeft(Squeezed("_" + x), {'_'}) == StripLeft(Squeezed(x), {'_'})
    decreases |x|
  {
    assert ("_" + x)[1..] == x;
    if x != "" && x[0] == '_' {
      SqueezedGap(x[1..]);
      assert x == "_" + x[1..];
    } else if |x| >= 2 {
      assert Squeezed(x)[0] == x[0];
    }
    var r := StripLeft(Squeezed(x), {'_'});
    assert ("_" + r)[1..] == r;
  }

  lemma {:induction false} StripsInside(w: string, y: string)
    requires w != "" && '_' !in w
    ensures StripRight(w + y, {'_'}) == w + StripRight(y, {'_'})
    decreases |y|
  {
    if y == "" {
      assert w + y == w && w[|w| - 1] in w;
    } else {
      assert (w + y)[|w + y| - 1] == y[|y| - 1] && (w + y)[..|w + y| - 1] == w + y[..|y| - 1];
      StripsInside(w, y[..|y| - 1]);
    }
  }

  lemma {:induction false} StripLeftEnds(s: string)
    ensures StripLeft(s, {'_'}) == "" || StripLeft(s, {'_'})[0] != '_'
    decreases |s|
  {
    if s != "" && s[0] == '_' {
      StripLeftEnds(s[1..]);
    }
  }

  lemma {:induction false} StripsGap(y: string)
    requires y == "" || y[0] != '_'
    ensures StripRight("_" + y, {'_'}) == if y == "" then "" else "_" + StripRight(y, {'_'})
    ensures y != "" ==> StripRight(y, {'_'}) != ""
    decreases |y|
  {
    if y == "" {
      assert "_"[..0] == "";
    } else if y[|y| - 1] == '_' {
      assert ("_" + y)[..|y|] == "_" + y[..|y| - 1];
      StripsGap(y[..|y| - 1]);
    }
  }

  lemma CleanedWord(word: string)
    requires word != "" && '_' !in word
    ensures Cleaned(word) == word
  {
    SqueezedWord(word, "");
    assert word + "" == word;
    assert word[0] in word;
    StripsInside(word, "");
  }

  lemma CleanedGap(rest: string)
    ensures Cleaned("") == "" && Cleaned("_" + rest) == Cleaned(rest)
  {
    SqueezedGap(rest);
  }

  lemma CleanedJoin(word: string, rest: string)
    requires word != "" && '_' !in word
    ensures Cleaned(word + ("_" + rest)) == if Cleaned(rest) == "" then word else word + ("_" + Cleaned(rest))
  {
    var y := StripLeft(Squeezed(rest), {'_'});
    SqueezedGap(rest);
    SqueezedWord(word, "_" + rest);
    var all := word + ("_" + y);
    assert Squeezed(word + ("_" + rest)) == all && all[0] == word[0] && word[0] in word;
    assert StripLeft(all, {'_'}) == all;
    StripsInside(word, "_" + y);
    StripLeftEnds(Squeezed(rest));
    StripsGap(y);
    assert y == "" ==> word + "" == word;
  }

  /** What cleaning keeps, word by word: nothing of a gap at either end, one underscore of a gap between two
      words, and all of a word. */
  lemma CleanedByWords(word: string, rest: string)
    requires word != "" && '_' !in word
    ensures Cleaned("") == "" && Cleaned(word) == word
    ensures Cleaned("_" + rest) == Cleaned(rest)
    ensures Cleaned(word + "_" + rest) == if Cleaned(rest) == "" then word else word + "_" + Cleaned(rest)
  {
    CleanedWord(word);
    CleanedGap(rest);
    CleanedJoin(word, rest);
    assert word + ("_" + rest) == word + "_" + rest;
    assert word + ("_" + Cleaned(rest)) == word + "_" + Cleaned(rest);
  }

  function Slug(u: Unicode, value: string): (r: string) {
    Cleaned(Letters(u, u.fold(value)))
  }

  /** `transliterate`. */
  method Transliterate(u: Unicode, value: string) returns (r: string)
    ensures r == Slug(u, value)
  {
    var folded, output := u.fold(value), "";
    for i := 0 to |folded|
      invariant output == Letters(u, folded[..i])
    {
      var c := folded[i];
      assert folded[..i + 1][..i] == folded[..i] && folded[..i + 1][i] == c;
      if c in CYRILLIC {
        output := output + CYRILLIC[c];
      } else if AsciiAlnum(c) {
        output := output + [c];
      } else if !u.mark(c) {
        output := output + "_";
      }
    }
    assert folded[..|folded|] == folded;
    r := Cleaned(output);
  }

  // Letters and digits, and underscores one at a time.
  predicate Underscored(s: string) {
    forall i | 0 <= i < |s| :: Alnum(s[i]) || s[i] == '_'
  }

  predicate Single(s: string) {
    forall i | 0 <= i < |s| - 1 :: !(s[i] == '_' && s[i + 1] == '_')
  }

  lemma CyrillicIsPlain(c: char)
    requires c in CYRILLIC
    ensures forall i | 0 <= i < |CYRILLIC[c]| :: Alnum(CYRILLIC[c][i])
  {
  }

  lemma {:induction false} LettersAreUnderscored(u: Unicode, s: string)
    requires forall i | 0 <= i < |s| :: !('A' <= s[i] <= 'Z')
    ensures Underscored(Letters(u, s))
    decreases |s|
  {
    if s != "" {
      LettersAreUnderscored(u, s[..|s| - 1]);
      if s[|s| - 1] in CYRILLIC {
        CyrillicIsPlain(s[|s| - 1]);
      }
    }
  }

  lemma {:induction false} SqueezedIsSingle(s: string)
    requires Underscored(s)
    ensures Underscored(Squeezed(s)) && Single(Squeezed(s))
    ensures s != "" ==> Squeezed(s) != "" && Squeezed(s)[0] == s[0]
    decreases |s|
  {
    if |s| >= 2 {
      SqueezedIsSingle(s[1..]);
    }
  }

  lemma {:induction false} StripLeftKeeps(s: string)
    requires Underscored(s) && Single(s)
    ensures var r := StripLeft(s, {'_'}); Underscored(r) && Single(r) && (r != "" ==> r[0] != '_')
    decreases |s|
  {
  }

  lemma {:induction false} StripRightIsPrefix(s: string, these: set<char>)
    ensures StripRight(s, these) <= s
    ensures StripRight(s, these) != "" ==> StripRight(s, these)[|StripRight(s, these)| - 1] !in these
    decreases |s|
  {
    if s != "" && s[|s| - 1] in these {
      StripRightIsPrefix(s[..|s| - 1], these);
    }
  }

  lemma CleanedHasForm(letters: string)
    requires Underscored(letters)
    ensures Cleaned(letters) == "" || LocalForm(Cleaned(letters))
    ensures Underscored(Cleaned(letters)) && Single(Cleaned(letters))
  {
    SqueezedIsSingle(letters);
    StripLeftKeeps(Squeezed(letters));
    StripRightIsPrefix(StripLeft(Squeezed(letters), {'_'}), {'_'});
  }

  /** Any name comes out as nothing, or as something of the form a local part has. */
  lemma SlugHasForm(u: Unicode, value: string)
    requires Lawful(u)
    ensures Slug(u, value) == "" || LocalForm(Slug(u, value))
    ensures Underscored(Slug(u, value)) && Single(Slug(u, value))
  {
    LettersAreUnderscored(u, u.fold(value));
    CleanedHasForm(Letters(u, u.fold(value)));
  }

  lemma FoldKeeps(u: Unicode, s: string)
    requires Lawful(u) && Underscored(s)
    ensures u.fold(s) == s
  {
  }

  lemma LetterKeeps(u: Unicode, c: char)
    requires (Alnum(c) || c == '_') && !u.mark('_')
    ensures Letter(u, c) == [c]
  {
  }

  lemma {:induction false} LettersKeep(u: Unicode, s: string)
    requires Underscored(s) && !u.mark('_')
    ensures Letters(u, s) == s
    decreases |s|
  {
    if s != "" {
      LettersKeep(u, s[..|s| - 1]);
      LetterKeeps(u, s[|s| - 1]);
    }
  }

  lemma {:induction false} SqueezedKeeps(s: string)
    requires Single(s)
    ensures Squeezed(s) == s
    decreases |s|
  {
    if |s| >= 2 {
      assert !(s[0] == '_' && s[0 + 1] == '_');
      assert forall i | 0 <= i < |s| - 1 :: s[1..][i] == s[i + 1];
      SqueezedKeeps(s[1..]);
    }
  }

  lemma CleanedKeeps(s: string)
    requires Underscored(s) && Single(s) && (s == "" || LocalForm(s))
    ensures Cleaned(s) == s
  {
    SqueezedKeeps(s);
    assert StripLeft(s, {'_'}) == s && StripRight(s, {'_'}) == s;
  }

  lemma SlugKeeps(u: Unicode, s: string)
    requires Lawful(u) && !u.mark('_') && Underscored(s) && Single(s) && (s == "" || LocalForm(s))
    ensures Slug(u, s) == s
  {
    FoldKeeps(u, s);
    LettersKeep(u, s);
    CleanedKeeps(s);
  }

  /** And what came out once goes through unchanged (the underscore being no combining mark). */
  lemma SlugIsStable(u: Unicode, value: string)
    requires Lawful(u) && !u.mark('_')
    ensures Slug(u, Slug(u, value)) == Slug(u, value)
  {
    SlugHasForm(u, value);
    SlugKeeps(u, Slug(u, value));
  }

  // ---- normalising and suggesting ----

  // None where the code raises.
  function Normalized(u: Unicode, value: string): (r: Option<string>) {
    if Valid(u.tidy(value)) then Some(u.tidy(value)) else None
  }

  const SEPARATORS: set<char> := {'.', '_', '-'}

  function Take(s: string, n: nat): (r: string) {
    if n <= |s| then s[..n] else s
  }

  function Joined(first: string, last: string): (r: string) {
    if first == "" then last else if last == "" then first else first + "_" + last
  }

  function Suggested(u: Unicode, firstName: string, lastName: string): (r: Option<string>) {
    var candidate := StripRight(Take(Joined(Slug(u, firstName), Slug(u, lastName)), 48), SEPARATORS);
    Normalized(u, if |candidate| < 3 || candidate in RESERVED then "family_agent" else candidate)
  }

  /** What is accepted is the tidied name, if it has the length and the form and is not reserved. */
  lemma NormalizedIff(u: Unicode, value: string, r: string)
    ensures Normalized(u, value) == Some(r)
            <==> r == u.tidy(value) && 3 <= |r| <= 48 && Spelled(r) && r !in RESERVED
  {
    FormIsSpelled(u.tidy(value));
  }

  // The first n characters of a text without the separators they end in.
  ghost predicate Shortened(s: string, n: nat, r: string) {
    && r <= s && |r| <= n
    && (r != "" ==> r[|r| - 1] != '.' && r[|r| - 1] != '_' && r[|r| - 1] != '-')
    && forall i | |r| <= i < n && i < |s| :: s[i] == '.' || s[i] == '_' || s[i] == '-'
  }

  lemma CutIsShortened(s: string, n: nat)
    ensures Shortened(s, n, StripRight(Take(s, n), SEPARATORS))
  {
    var cut := Take(s, n);
    StripRightIsPrefix(cut, SEPARATORS);
    var after := RightParts(cut, SEPARATORS);
    var r := StripRight(cut, SEPARATORS);
    forall i | |r| <= i < n && i < |s|
      ensures s[i] in SEPARATORS
    {
      assert s[i] == cut[i] == (r + after)[i] == after[i - |r|];
    }
  }

  lemma OneShortening(s: string, n: nat, r: string, r': string)
    requires Shortened(s, n, r) && Shortened(s, n, r')
    ensures r == r'
  {
    assert r == s[..|r|] && r' == s[..|r'|];
  }

  // Two names with an underscore between them, or the one there is.
  ghost predicate Together(first: string, last: string, both: string) {
    && (first != "" && last != "" ==> both == first + "_" + last)
    && (first == "" ==> both == last)
    && (last == "" ==> both == first)
  }

  // Cut anywhere, a local part keeps its form once trailing separators are gone.
  lemma CutKeepsForm(s: string, n: nat)
    requires s == "" || LocalForm(s)
    ensures var r := StripRight(Take(s, n), SEPARATORS); (r == "" || LocalForm(r)) && r <= s && |r| <= n
  {
    StripRightIsPrefix(Take(s, n), SEPARATORS);
  }

  lemma ValidIsNormal(u: Unicode, s: string)
    requires Lawful(u) && Valid(s)
    ensures Normalized(u, s) == Some(s)
  {
  }

  lemma FallbackIsValid()
    ensures Valid("family_agent")
  {
  }

  lemma JoinKeepsForm(first: string, last: string)
    requires first == "" || LocalForm(first)
    requires last == "" || LocalForm(last)
    ensures Joined(first, last) == "" || LocalForm(Joined(first, last))
  {
  }

  /** A suggestion is never refused: for every pair of names it is a valid local part that nobody
      reserved. */
  lemma SuggestionIsValid(u: Unicode, firstName: string, lastName: string)
    requires Lawful(u)
    ensures Suggested(u, firstName, lastName).Some? && Valid(Suggested(u, firstName, lastName).value)
  {
    SlugHasForm(u, firstName);
    SlugHasForm(u, lastName);
    var joined := Joined(Slug(u, firstName), Slug(u, lastName));
    JoinKeepsForm(Slug(u, firstName), Slug(u, lastName));
    CutKeepsForm(joined, 48);
    var candidate := StripRight(Take(joined, 48), SEPARATORS);
    var chosen := if |candidate| < 3 || candidate in RESERVED then "family_agent" else candidate;
    assert Valid(chosen) by {
      FallbackIsValid();
    }
    ValidIsNormal(u, chosen);
  }

  /** And which one: both names as they are transliterated, shortened to 48 characters - unless that leaves
      fewer than three or a reserved name. */
  lemma SuggestionIsTheName(u: Unicode, firstName: string, lastName: string, both: string, name: string)
    requires Lawful(u)
    requires Together(Slug(u, firstName), Slug(u, lastName), both) && Shortened(both, 48, name)
    ensures Suggested(u, firstName, lastName)
            == Some(if 3 <= |name| && name !in RESERVED then name else "family_agent")
  {
    SuggestionIsValid(u, firstName, lastName);
    var candidate := StripRight(Take(both, 48), SEPARATORS);
    CutIsShortened(both, 48);
    OneShortening(both, 48, name, candidate);
    var chosen := if 3 <= |name| && name !in RESERVED then name else "family_agent";
    SlugHasForm(u, firstName);
    SlugHasForm(u, lastName);
    JoinKeepsForm(Slug(u, firstName), Slug(u, lastName));
    CutKeepsForm(both, 48);
    FallbackIsValid();
    ValidIsNormal(u, chosen);
  }

  // ---- numbered variants ----

  function Digit(d: nat): (c: char)
    requires d < 10
  {
    ('0' as int + d) as char
  }

  function Decimal(n: nat): (s: string)
    ensures s != "" && (|s| == 1 <==> n < 10) && forall i | 0 <= i < |s| :: '0' <= s[i] <= '9'
  {
    if n < 10 then [Digit(n)] else Decimal(n / 10) + [Digit(n % 10)]
  }

  // `s[:k]`, which counts from the end for a negative k.
  function Slice(s: string, k: int): (r: string) {
    if k >= 0 then Take(s, k) else if |s| + k > 0 then s[..|s| + k] else ""
  }

  function CollisionCandidate(u: Unicode, base: string, sequence: int): (r: Option<string>) {
    if sequence < 2 then Normalized(u, base) else
    match Normalized(u, base)
    case None => None
    case Some(normal) =>
      var suffix := Decimal(sequence);
      Normalized(u, StripRight(Slice(normal, 48 - |suffix|), SEPARATORS) + suffix)
  }

  lemma {:induction false} SmallPower(k: nat)
    requires k > 0
    ensures Pow10(k) >= 10
    decreases k
  {
    if k > 1 {
      SmallPower(k - 1);
    }
  }

  lemma {:induction false} DecimalLength(n: nat, k: nat)
    requires k > 0
    ensures |Decimal(n)| <= k <==> n < Pow10(k)
    decreases k
  {
    if k == 1 {
      assert Pow10(1) == 10;
    } else if n >= 10 {
      DecimalLength(n / 10, k - 1);
      assert n / 10 < Pow10(k - 1) <==> n < Pow10(k);
    } else {
      SmallPower(k);
    }
  }

  // What a numeral stands for.
  ghost function Value(s: string): (n: int)
    decreases |s|
  {
    if s == "" then 0 else 10 * Value(s[..|s| - 1]) + (s[|s| - 1] as int - '0' as int)
  }

  lemma {:induction false} DecimalMeans(n: nat)
    ensures Value(Decimal(n)) == n && (n > 0 ==> Decimal(n)[0] != '0')
    decreases n
  {
    var s := Decimal(n);
    if n < 10 {
      assert s[..0] == "";
    } else {
      DecimalMeans(n / 10);
      assert s[..|s| - 1] == Decimal(n / 10);
    }
  }

  lemma {:induction false} DecimalIsInjective(m: nat, n: nat)
    requires Decimal(m) == Decimal(n)
    ensures m == n
    decreases m
  {
    if m >= 10 && n >= 10 {
      var s, t := Decimal(m), Decimal(n);
      assert s[..|s| - 1] == Decimal(m / 10) && t[..|t| - 1] == Decimal(n / 10);
      assert s[|s| - 1] == Digit(m % 10) && t[|t| - 1] == Digit(n % 10);
      DecimalIsInjective(m / 10, n / 10);
    }
  }

  // No reserved name holds a digit.
  lemma DigitIsUnreserved(s: string, i: nat)
    requires i < |s| && '0' <= s[i] <= '9'
    ensures s !in RESERVED
  {
  }

  lemma SuffixKeepsForm(stem: string, suffix: string)
    requires stem == "" || LocalForm(stem)
    requires suffix != "" && forall i | 0 <= i < |suffix| :: '0' <= suffix[i] <= '9'
    ensures LocalForm(stem + suffix)
  {
  }

  // Cutting a valid name loses at most one separator beyond the cut.
  lemma StemLength(normal: string, n: nat)
    requires LocalForm(normal)
    ensures |StripRight(Take(normal, n), SEPARATORS)| + 1 >= |Take(normal, n)|
    ensures |normal| <= n ==> StripRight(Take(normal, n), SEPARATORS) == normal
  {
  }

  lemma StemAndSuffix(normal: string, suffix: string)
    requires Valid(normal) && suffix != "" && |suffix| <= 48 && forall i | 0 <= i < |suffix| :: '0' <= suffix[i] <= '9'
    ensures Valid(StripRight(Slice(normal, 48 - |suffix|), SEPARATORS) + suffix)
  {
    var stem := StripRight(Slice(normal, 48 - |suffix|), SEPARATORS);
    CutKeepsForm(normal, 48 - |suffix|);
    StemLength(normal, 48 - |suffix|);
    SuffixKeepsForm(stem, suffix);
    DigitIsUnreserved(stem + suffix, |stem + suffix| - 1);
  }

  lemma TooLongIsRefused(u: Unicode, normal: string, suffix: string)
    requires Lawful(u) && LocalForm(normal) && |suffix| > 48 && forall i | 0 <= i < |suffix| :: '0' <= suffix[i] <= '9'
    ensures Normalized(u, StripRight(Slice(normal, 48 - |suffix|), SEPARATORS) + suffix) == None
  {
  }

  /** A numbered variant is refused exactly when the base is, or when the number itself has more than 48
      digits; otherwise it is a valid, unreserved local part. */
  lemma CandidateIsValidIff(u: Unicode, base: string, sequence: int)
    requires Lawful(u)
    ensures var r := CollisionCandidate(u, base, sequence);
            && (r.Some? <==> Normalized(u, base).Some? && (sequence < 2 || sequence < Pow10(48)))
            && (r.Some? ==> Valid(r.value))
            && (sequence < 2 ==> r == Normalized(u, base))
  {
    if sequence >= 2 && Normalized(u, base).Some? {
      var normal, suffix := Normalized(u, base).value, Decimal(sequence);
      DecimalLength(sequence, 48);
      var stem := StripRight(Slice(normal, 48 - |suffix|), SEPARATORS);
      if |suffix| <= 48 {
        StemAndSuffix(normal, suffix);
        ValidIsNormal(u, stem + suffix);
      } else {
        TooLongIsRefused(u, normal, suffix);
      }
    }
  }

  lemma UncutCandidate(u: Unicode, base: string, sequence: int)
    requires Lawful(u) && Normalized(u, base).Some? && 2 <= sequence
    requires |Normalized(u, base).value| + |Decimal(sequence)| <= 48
    ensures CollisionCandidate(u, base, sequence) == Some(Normalized(u, base).value + Decimal(sequence))
  {
    var normal, suffix := Normalized(u, base).value, Decimal(sequence);
    StemLength(normal, 48 - |suffix|);
    StemAndSuffix(normal, suffix);
    ValidIsNormal(u, normal + suffix);
  }

  /** Variants that need no cutting are all different. */
  lemma CandidatesDiffer(u: Unicode, base: string, a: int, b: int)
    requires Lawful(u) && Normalized(u, base).Some? && 2 <= a && 2 <= b && a != b
    requires |Normalized(u, base).value| + |Decimal(a)| <= 48 && |Normalized(u, base).value| + |Decimal(b)| <= 48
    ensures CollisionCandidate(u, base, a) != CollisionCandidate(u, base, b)
  {
    var normal := Normalized(u, base).value;
    UncutCandidate(u, base, a);
    UncutCandidate(u, base, b);
    if normal + Decimal(a) == normal + Decimal(b) {
      assert Decimal(a) == (normal + Decimal(a))[|normal|..] == Decimal(b);
      DecimalIsInjective(a, b);
    }
  }

  // What stands before the number in a variant.
  function Stem(normal: string, sequence: nat): (stem: string) {
    StripRight(Slice(normal, 48 - |Decimal(sequence)|), SEPARATORS)
  }

  lemma NumberedIsNormal(u: Unicode, normal: string, suffix: string, whole: string)
    requires Lawful(u) && Valid(normal) && suffix != "" && |suffix| <= 48
    requires forall i | 0 <= i < |suffix| :: '0' <= suffix[i] <= '9'
    requires whole == StripRight(Slice(normal, 48 - |suffix|), SEPARATORS) + suffix
    ensures Normalized(u, whole) == Some(whole)
  {
    StemAndSuffix(normal, suffix);
    ValidIsNormal(u, whole);
  }

  lemma CandidateIsStemAndNumber(u: Unicode, base: string, normal: string, sequence: int)
    requires Lawful(u) && Normalized(u, base) == Some(normal) && 2 <= sequence && |Decimal(sequence)| <= 48
    ensures CollisionCandidate(u, base, sequence) == Some(Stem(normal, sequence) + Decimal(sequence))
  {
    var suffix := Decimal(sequence);
    var whole := StripRight(Slice(normal, 48 - |suffix|), SEPARATORS) + suffix;
    assert CollisionCandidate(u, base, sequence) == Normalized(u, whole);
    NumberedIsNormal(u, normal, suffix, whole);
  }

  /** A variant is the base, shortened to make room, and then the number: its digits, most significant first. */
  lemma CandidateIs(u: Unicode, base: string, sequence: int, stem: string, number: string)
    requires Lawful(u) && Normalized(u, base).Some? && |number| <= 48
    requires Shortened(Normalized(u, base).value, 48 - |number|, stem)
    requires sequence >= 2 && number == Decimal(sequence)
    ensures Value(number) == sequence && number[0] != '0'
    ensures CollisionCandidate(u, base, sequence) == Some(stem + number)
  {
    var normal := Normalized(u, base).value;
    DecimalMeans(sequence);
    CandidateIsStemAndNumber(u, base, normal, sequence);
    CutIsShortened(normal, 48 - |number|);
    OneShortening(normal, 48 - |number|, stem, Stem(normal, sequence));
  }

  // `stem + number` against a longer number: the shorter ends it, and the stem continues into the rest.
  predicate Continues(stem: string, number: string, otherStem: string, longer: string) {
    && |number| < |longer| && longer[|longer| - |number|..] == number
    && stem == otherStem + longer[..|longer| - |number|]
  }

  lemma ContinuesIff(stem: string, number: string, otherStem: string, longer: string)
    requires |number| < |longer|
    ensures stem + number == otherStem + longer <==> Continues(stem, number, otherStem, longer)
  {
    var n, rest := |stem|, longer[..|longer| - |number|];
    assert longer == rest + longer[|longer| - |number|..];
    assert otherStem + rest + number == otherStem + (rest + number);
    if stem + number == otherStem + longer {
      assert n == |otherStem| + |rest|;
      assert stem == (stem + number)[..n] == (otherStem + longer)[..n] == otherStem + rest;
      assert number == (stem + number)[n..] == (otherStem + longer)[n..] == longer[|longer| - |number|..];
    }
  }

  lemma TextsCoincideIff(stem: string, number: string, otherStem: string, other: string)
    ensures stem + number == otherStem + other
            <==> || (number == other && stem == otherStem)
                 || Continues(stem, number, otherStem, other) || Continues(otherStem, other, stem, number)
  {
    if |number| == |other| {
      assert stem + number == otherStem + other ==> (stem + number)[|stem|..] == (otherStem + other)[|stem|..];
      assert stem + number == otherStem + other ==> (stem + number)[..|stem|] == (otherStem + other)[..|stem|];
    } else if |number| < |other| {
      ContinuesIff(stem, number, otherStem, other);
    } else {
      ContinuesIff(otherStem, other, stem, number);
    }
  }

  /** Exactly when two numbered variants of a base coincide: when their numbers have different lengths, the
      shorter ends the longer, and what was kept of the base before the shorter one spells out the rest of
      the longer. Numbers of one length never do. */
  lemma CandidatesCoincideIff(u: Unicode, base: string, a: int, b: int)
    requires Lawful(u) && Normalized(u, base).Some? && a != b && 2 <= a < Pow10(48) && 2 <= b < Pow10(48)
    ensures var normal := Normalized(u, base).value;
            CollisionCandidate(u, base, a) == CollisionCandidate(u, base, b)
            <==> || Continues(Stem(normal, a), Decimal(a), Stem(normal, b), Decimal(b))
                 || Continues(Stem(normal, b), Decimal(b), Stem(normal, a), Decimal(a))
  {
    var normal := Normalized(u, base).value;
    DecimalLength(a, 48);
    DecimalLength(b, 48);
    CandidateIsStemAndNumber(u, base, normal, a);
    CandidateIsStemAndNumber(u, base, normal, b);
    TextsCoincideIff(Stem(normal, a), Decimal(a), Stem(normal, b), Decimal(b));
    if Decimal(a) == Decimal(b) {
      DecimalIsInjective(a, b);
    }
  }

  lemma PlainIsValid(s: string, digit: nat)
    requires 3 <= |s| <= 48 && digit < |s| && '0' <= s[digit] <= '9'
    requires forall i | 0 <= i < |s| :: Alnum(s[i])
    ensures Valid(s)
  {
  }

  lemma TwoAndTwelve()
    ensures Decimal(2) == "2" && Decimal(12) == "12"
  {
  }

  /** Those that do may coincide: of a base of 48 characters that ends in `1b`, the second and the twelfth
      variant are the same. */
  lemma CutCandidatesMayCoincide(u: Unicode, stem: string)
    requires Lawful(u) && |stem| == 46 && forall i | 0 <= i < |stem| :: Alnum(stem[i])
    ensures Normalized(u, stem + "1b") == Some(stem + "1b")
    ensures CollisionCandidate(u, stem + "1b", 2) == CollisionCandidate(u, stem + "1b", 12) == Some(stem + "12")
  {
    var base := stem + "1b";
    PlainIsValid(base, 46);
    ValidIsNormal(u, base);
    TwoAndTwelve();
    CandidateIsStemAndNumber(u, base, base, 2);
    CandidateIsStemAndNumber(u, base, base, 12);
    assert Slice(base, 47) == stem + "1" && Slice(base, 46) == stem;
    assert stem + "1" + "2" == stem + "12";
  }
}

/** What several components share: values that may be absent, bytes, stripping, powers of ten and the
    size of a subset. */
module Basics {
  // A nullable column, an optional argument, a lookup that finds nothing.
  datatype Option<+T> = None | Some(value: T)

  type Bytes = seq<bv8>

  // `lstrip` and `rstrip` of a set of characters.
  function StripLeft(s: string, these: set<char>): (r: string) {
    if s != "" && s[0] in these then StripLeft(s[1..], these) else s
  }

  function StripRight(s: string, these: set<char>): (r: string) {
    if s != "" && s[|s| - 1] in these then StripRight(s[..|s| - 1], these) else s
  }

  predicate Only(s: string, these: set<char>) {
    forall c | c in s :: c in these
  }

  // Stripping takes off exactly the characters of the set at that end.
  lemma {:induction false} StripsLeft(before: string, rest: string, these: set<char>)
    requires Only(before, these) && (rest == "" || rest[0] !in these)
    ensures StripLeft(before + rest, these) == rest
  {
    if before == "" {
      assert before + rest == rest;
    } else {
      assert (before + rest)[0] == before[0] && before[0] in before && (before + rest)[1..] == before[1..] + rest;
      StripsLeft(before[1..], rest, these);
    }
  }

  lemma {:induction false} StripsRight(rest: string, after: string, these: set<char>)
    requires Only(after, these) && (rest == "" || rest[|rest| - 1] !in these)
    ensures StripRight(rest + after, these) == rest
  {
    if after == "" {
      assert rest + after == rest;
    } else {
      var all, n := rest + after, |after| - 1;
      assert all[|all| - 1] == after[n] && after[n] in after && all[..|all| - 1] == rest + after[..n];
      StripsRight(rest, after[..n], these);
    }
  }

  lemma {:induction false} LeftParts(s: string, these: set<char>) returns (before: string)
    ensures s == before + StripLeft(s, these) && Only(before, these)
  {
    before := "";
    if s != "" && s[0] in these {
      var rest := LeftParts(s[1..], these);
      before := [s[0]] + rest;
    }
  }

  lemma {:induction false} RightParts(s: string, these: set<char>) returns (after: string)
    ensures s == StripRight(s, these) + after && Only(after, these)
  {
    after := "";
    if s != "" && s[|s| - 1] in these {
      var rest := RightParts(s[..|s| - 1], these);
      after := rest + [s[|s| - 1]];
    }
  }

  function Pow10(k: nat): (p: nat) {
    if k == 0 then 1 else 10 * Pow10(k - 1)
  }

  lemma {:induction false} SubsetCount<T>(a: set<T>, b: set<T>)
    requires a <= b
    ensures |a| <= |b|
    decreases a
  {
    if a != {} {
      var x :| x in a;
      SubsetCount(a - {x}, b - {x});
    }
  }
}

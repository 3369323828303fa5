/** The IBAN search of scripts/check_fixtures.py: what its mod-97 check (the MOD 97-10 system of ISO/IEC
    7064, as ISO 13616 uses it) catches, and that spacing and case do not hide an account number. */
module IbanChecksum {
  import opened Basics

  predicate IsDigit(c: char) { '0' <= c <= '9' }

  predicate IsUpper(c: char) { 'A' <= c <= 'Z' }

  predicate IsLower(c: char) { 'a' <= c <= 'z' }

  predicate Printed(c: char) { IsDigit(c) || IsUpper(c) }

  // ---- the check ----

  // `int(ch, 36)`.
  function CharValue(c: char): (v: nat)
    requires Printed(c)
    ensures v < 36 && (IsDigit(c) <==> v < 10)
  {
    if IsDigit(c) then c as int - '0' as int else c as int - 'A' as int + 10
  }

  // `str(..)` of it, as digits.
  function Spelling(c: char): (ds: seq<nat>)
    requires Printed(c)
  {
    if CharValue(c) < 10 then [CharValue(c)] else [CharValue(c) / 10, CharValue(c) % 10]
  }

  predicate AllPrinted(s: string) {
    forall i | 0 <= i < |s| :: Printed(s[i])
  }

  function Spelled(s: string): (ds: seq<nat>)
    requires AllPrinted(s)
    decreases |s|
  {
    if s == [] then [] else Spelling(s[0]) + Spelled(s[1..])
  }

  function ToInt(ds: seq<nat>): (n: nat)
    decreases |ds|
  {
    if ds == [] then 0 else ToInt(ds[..|ds| - 1]) * 10 + ds[|ds| - 1]
  }

  predicate WellFormed(s: string) {
    && 15 <= |s| <= 34 && AllPrinted(s)
    && IsUpper(s[0]) && IsUpper(s[1]) && IsDigit(s[2]) && IsDigit(s[3])
  }

  function Rearranged(s: string): (r: string)
    requires WellFormed(s)
    ensures AllPrinted(r) && |r| == |s|
  {
    s[4..] + s[..4]
  }

  predicate ChecksumOk(s: string) {
    WellFormed(s) && ToInt(Spelled(Rearranged(s))) % 97 == 1
  }

  // ---- arithmetic of the spelled number ----

  function Num(s: string): (n: nat)
    requires AllPrinted(s)
  {
    ToInt(Spelled(s))
  }

  function Width(s: string): (w: nat)
    requires AllPrinted(s)
  {
    |Spelled(s)|
  }

  lemma Appended(a: nat, p: nat, front: nat, last: nat)
    ensures (a * p + front) * 10 + last == a * (10 * p) + (front * 10 + last)
  {
  }

  lemma {:induction false} ToIntJoins(a: seq<nat>, b: seq<nat>)
    ensures ToInt(a + b) == ToInt(a) * Pow10(|b|) + ToInt(b)
    decreases |b|
  {
    if b == [] {
      assert a + b == a;
    } else {
      var front := b[..|b| - 1];
      ToIntJoins(a, front);
      assert (a + b)[..|a + b| - 1] == a + front;
      Appended(ToInt(a), Pow10(|front|), ToInt(front), b[|b| - 1]);
    }
  }

  lemma {:induction false} SpelledJoins(a: string, b: string)
    requires AllPrinted(a) && AllPrinted(b)
    ensures Spelled(a + b) == Spelled(a) + Spelled(b)
    decreases |a|
  {
    if a == [] {
      assert a + b == b;
    } else {
      assert (a + b)[1..] == a[1..] + b;
      SpelledJoins(a[1..], b);
    }
  }

  lemma NumJoins(a: string, b: string)
    requires AllPrinted(a) && AllPrinted(b)
    ensures Num(a + b) == Num(a) * Pow10(Width(b)) + Num(b)
    ensures Width(a + b) == Width(a) + Width(b)
  {
    SpelledJoins(a, b);
    ToIntJoins(Spelled(a), Spelled(b));
  }

  // Changing a middle of unchanged width moves the number by its own change, shifted.
  lemma MiddleMoves(p: string, mid: string, other: string, q: string)
    requires AllPrinted(p) && AllPrinted(mid) && AllPrinted(other) && AllPrinted(q) && Width(mid) == Width(other)
    ensures Num(p + mid + q) - Num(p + other + q) == (Num(mid) - Num(other)) * Pow10(Width(q))
  {
    NumJoins(p, mid);
    NumJoins(p, other);
    NumJoins(p + mid, q);
    NumJoins(p + other, q);
    var shift, head := Pow10(Width(q)), Num(p) * Pow10(Width(mid));
    assert (head + Num(mid)) * shift - (head + Num(other)) * shift == (Num(mid) - Num(other)) * shift;
  }

  // Ten is invertible modulo 97, so a shift hides nothing.
  lemma {:induction false} ShiftHidesNothing(d: int, k: nat)
    requires d * Pow10(k) % 97 == 0
    ensures d % 97 == 0
    decreases k
  {
    if k > 0 {
      var x := d * Pow10(k - 1);
      assert d * Pow10(k) == 10 * x;
      assert x % 97 == 0 by {
        var m := 10 * x / 97;
        assert 680 * x == 97 * (68 * m) && 680 * x == 97 * (7 * x) + x;
        assert x == 97 * (68 * m - 7 * x);
      }
      ShiftHidesNothing(d, k - 1);
    }
  }

  lemma Shifted(d: int, k: nat)
    ensures d * Pow10(k) % 97 == 0 <==> d % 97 == 0
  {
    if d * Pow10(k) % 97 == 0 {
      ShiftHidesNothing(d, k);
    }
    if d % 97 == 0 {
      assert d == 97 * (d / 97);
      assert d * Pow10(k) == 97 * (d / 97 * Pow10(k));
    }
  }

  lemma SameResidue(a: nat, b: nat)
    requires a % 97 == 1
    ensures b % 97 == 1 <==> (a - b) % 97 == 0
  {
  }

  // ---- what it catches ----

  predicate SameClass(x: char, y: char) {
    (IsDigit(x) && IsDigit(y)) || (IsUpper(x) && IsUpper(y))
  }

  lemma ToIntOne(d: nat)
    ensures ToInt([d]) == d
  {
  }

  lemma NumOfOne(c: char)
    requires Printed(c)
    ensures Num([c]) == CharValue(c) && Width([c]) == if IsDigit(c) then 1 else 2
  {
    assert [c][1..] == [];
    assert Spelled([c]) == Spelling(c);
    ToIntOne(if CharValue(c) < 10 then CharValue(c) else CharValue(c) / 10);
    if CharValue(c) >= 10 {
      assert Spelling(c)[..1] == [CharValue(c) / 10];
    }
  }

  // The number a text of digits and capitals is read as: a letter, 10 to 35, takes two places.
  ghost function Reading(s: string): (n: int)
    decreases |s|
  {
    if s == "" then 0 else
    var front, c := Reading(s[..|s| - 1]), s[|s| - 1];
    if '0' <= c <= '9' then 10 * front + (c as int - '0' as int) else 100 * front + (c as int - 'A' as int + 10)
  }

  lemma {:induction false} NumIsReading(s: string)
    requires AllPrinted(s)
    ensures Num(s) == Reading(s)
    decreases |s|
  {
    if s != "" {
      var front, c := s[..|s| - 1], s[|s| - 1];
      NumIsReading(front);
      NumJoins(front, [c]);
      NumOfOne(c);
      assert s == front + [c];
      assert Pow10(1) == 10 && Pow10(2) == 100;
    }
  }

  /** What is accepted: two capitals, two digits, 11 to 30 of either, and the number they are read as, the first
      four last, leaves 1 when divided by 97. */
  lemma AcceptedExactly(s: string)
    ensures ChecksumOk(s)
            <==> && 15 <= |s| <= 34 && 'A' <= s[0] <= 'Z' && 'A' <= s[1] <= 'Z' && '0' <= s[2] <= '9'
                 && '0' <= s[3] <= '9'
                 && (forall i | 4 <= i < |s| :: '0' <= s[i] <= '9' || 'A' <= s[i] <= 'Z')
                 && Reading(s[4..] + s[..4]) % 97 == 1
  {
    if WellFormed(s) {
      NumIsReading(Rearranged(s));
    }
  }

  // A change of unchanged width is missed exactly when it is a multiple of 97.
  lemma ChangeWithin(s: string, t: string, p: string, mid: string, other: string, q: string)
    requires ChecksumOk(s) && WellFormed(t) && Rearranged(s) == p + mid + q && Rearranged(t) == p + other + q
    requires AllPrinted(mid) && AllPrinted(other) && Width(mid) == Width(other)
    ensures ChecksumOk(t) <==> (Num(mid) - Num(other)) % 97 == 0
  {
    assert AllPrinted(p) by {
      assert forall k | 0 <= k < |p| :: p[k] == Rearranged(s)[k];
    }
    assert AllPrinted(q) by {
      assert forall k | 0 <= k < |q| :: q[k] == Rearranged(s)[|p + mid| + k];
    }
    MiddleMoves(p, mid, other, q);
    SameResidue(Num(Rearranged(s)), Num(Rearranged(t)));
    Shifted(Num(mid) - Num(other), Width(q));
  }

  // Where the i-th character stands in the number that is checked, whatever character it is.
  lemma AroundOne(s: string, i: nat, y: char) returns (p: string, q: string)
    requires WellFormed(s) && i < |s| && WellFormed(s[i := y])
    ensures Rearranged(s) == p + [s[i]] + q && Rearranged(s[i := y]) == p + [y] + q
  {
    if i < 4 {
      p, q := s[4..] + s[..i], s[i + 1..4];
    } else {
      p, q := s[4..i], s[i + 1..] + s[..4];
    }
  }

  /** No accepted number stays accepted when one digit becomes another digit, or one letter another. */
  lemma SubstitutionIsCaught(s: string, i: nat, y: char)
    requires ChecksumOk(s) && i < |s| && y != s[i] && SameClass(s[i], y)
    ensures !ChecksumOk(s[i := y])
  {
    if WellFormed(s[i := y]) {
      var p, q := AroundOne(s, i, y);
      NumOfOne(s[i]);
      NumOfOne(y);
      ChangeWithin(s, s[i := y], p, [s[i]], [y], q);
    }
  }

  // The three pairs that spell the same number either way round: B1 and 1B, M2 and 2M, X3 and 3X.
  predicate Twins(x: char, y: char) {
    (x, y) in {('B', '1'), ('1', 'B'), ('M', '2'), ('2', 'M'), ('X', '3'), ('3', 'X')}
  }

  lemma NumOfTwo(x: char, y: char)
    requires Printed(x) && Printed(y)
    ensures Num([x, y]) == CharValue(x) * (if IsDigit(y) then 10 else 100) + CharValue(y)
    ensures Width([x, y]) == Width([x]) + Width([y])
  {
    assert [x, y] == [x] + [y];
    NumOfOne(x);
    NumOfOne(y);
    NumJoins([x], [y]);
    assert Pow10(1) == 10 && Pow10(2) == 100;
  }

  lemma LettersDiffer(a: int, b: int)
    requires 10 <= a < 36 && 10 <= b < 36 && a != b
    ensures (a * 100 + b - (b * 100 + a)) % 97 != 0
  {
  }

  // 97 is prime: dividing it by a smaller factor leaves a smaller one, down to one.
  lemma {:induction false} PrimeFactor(e: nat, n: int)
    requires 0 < e < 10 && (e * n) % 97 == 0
    ensures n % 97 == 0
    decreases e
  {
    if e > 1 {
      var q, r, m := 97 / e, 97 % e, e * n / 97;
      assert 0 < r < e;
      assert r * n == 97 * (n - q * m) by {
        assert r == 97 - q * e;
        assert r * n == 97 * n - q * (e * n);
        assert q * (e * n) == q * (97 * m);
      }
      PrimeFactor(r, n);
    }
  }

  lemma SmallFactor(d: int, n: int)
    requires -9 <= d <= 9 && d != 0 && n % 97 != 0
    ensures (d * n) % 97 != 0
  {
    if (d * n) % 97 == 0 {
      if d > 0 {
        PrimeFactor(d, n);
      } else {
        assert -d * n == -(d * n);
        PrimeFactor(-d, n);
      }
    }
  }

  lemma LetterAndDigitDiffer(letter: int, digit: int)
    requires 10 <= letter < 36 && 0 <= digit < 10
    ensures (letter * 10 + digit - (digit * 100 + letter)) % 97 == 0 <==> letter == 11 * digit
    ensures (digit * 100 + letter - (letter * 10 + digit)) % 97 == 0 <==> letter == 11 * digit
  {
    var e := letter - 11 * digit;
    if e != 0 {
      SmallFactor(9, e);
      SmallFactor(-9, e);
    }
    assert letter * 10 + digit - (digit * 100 + letter) == 9 * e;
    assert digit * 100 + letter - (letter * 10 + digit) == -9 * e;
  }

  lemma TwinValues(x: char, y: char)
    requires (IsUpper(x) && IsDigit(y)) || (IsDigit(x) && IsUpper(y))
    ensures IsUpper(x) ==> (Twins(x, y) <==> CharValue(x) == 11 * CharValue(y))
    ensures IsUpper(y) ==> (Twins(x, y) <==> CharValue(y) == 11 * CharValue(x))
  {
  }

  lemma PairsDiffer(x: char, y: char)
    requires Printed(x) && Printed(y) && x != y
    ensures (Num([x, y]) - Num([y, x])) % 97 == 0 <==> Twins(x, y)
  {
    NumOfTwo(x, y);
    NumOfTwo(y, x);
    if IsDigit(x) && IsDigit(y) {
      SmallFactor(9, CharValue(x) - CharValue(y));
    } else if IsUpper(x) && IsUpper(y) {
      LettersDiffer(CharValue(x), CharValue(y));
    } else if IsUpper(x) {
      LetterAndDigitDiffer(CharValue(x), CharValue(y));
      TwinValues(x, y);
    } else {
      LetterAndDigitDiffer(CharValue(y), CharValue(x));
      TwinValues(x, y);
    }
  }

  function Swapped(s: string, i: nat): (t: string)
    requires i + 1 < |s|
  {
    s[i := s[i + 1]][i + 1 := s[i]]
  }

  // A swap on one side of the point where the number is cut and turned around.
  lemma SwapWithin(s: string, i: nat, p: string, q: string)
    requires ChecksumOk(s) && i + 1 < |s| && s[i] != s[i + 1] && WellFormed(Swapped(s, i))
    requires Rearranged(s) == p + [s[i], s[i + 1]] + q && Rearranged(Swapped(s, i)) == p + [s[i + 1], s[i]] + q
    ensures ChecksumOk(Swapped(s, i)) <==> Twins(s[i], s[i + 1])
  {
    NumOfTwo(s[i], s[i + 1]);
    NumOfTwo(s[i + 1], s[i]);
    ChangeWithin(s, Swapped(s, i), p, [s[i], s[i + 1]], [s[i + 1], s[i]], q);
    PairsDiffer(s[i], s[i + 1]);
  }

  // The residues of 10^b for b < 8 and of 10^(8a) for a < 9.
  function Small(b: nat): (r: nat) {
    match b case 0 => 1 case 1 => 10 case 2 => 3 case 3 => 30 case 4 => 9 case 5 => 90 case 6 => 27 case _ => 76
  }

  function Large(a: nat): (r: nat) {
    match a
    case 0 => 1 case 1 => 81 case 2 => 62 case 3 => 75 case 4 => 61 case 5 => 91 case 6 => 96 case 7 => 16 case _ => 35
  }

  lemma ResidueOfFactor(x: nat, y: nat)
    ensures x * y % 97 == x % 97 * y % 97
  {
    var m, r := x / 97, x % 97;
    assert x * y == (97 * m + r) * y == 97 * (m * y) + r * y;
  }

  lemma ResidueOfProduct(x: nat, y: nat)
    ensures x * y % 97 == (x % 97) * (y % 97) % 97
  {
    ResidueOfFactor(x, y);
    ResidueOfFactor(y, x % 97);
    assert y * (x % 97) == x % 97 * y;
    assert y % 97 * (x % 97) == (x % 97) * (y % 97);
  }

  lemma {:induction false} PowersMultiply(i: nat, j: nat)
    ensures Pow10(i + j) == Pow10(i) * Pow10(j)
    decreases i
  {
    if i > 0 {
      PowersMultiply(i - 1, j);
    }
  }

  lemma SmallStep(b: nat)
    requires b < 7
    ensures Small(b) * 10 % 97 == Small(b + 1)
  {
  }

  lemma {:induction false} SmallResidue(b: nat)
    requires b < 8
    ensures Pow10(b) % 97 == Small(b)
    decreases b
  {
    if b > 0 {
      SmallResidue(b - 1);
      ResidueOfFactor(Pow10(b - 1), 10);
      SmallStep(b - 1);
    }
  }

  lemma TenToTheEighth()
    ensures Pow10(8) % 97 == 81
  {
    SmallResidue(7);
    ResidueOfFactor(Pow10(7), 10);
  }

  lemma LargeStep(a: nat)
    requires a < 8
    ensures 81 * Large(a) % 97 == Large(a + 1)
  {
  }

  lemma {:induction false} LargeResidue(a: nat)
    requires a < 9
    ensures Pow10(8 * a) % 97 == Large(a)
    decreases a
  {
    if a > 0 {
      LargeResidue(a - 1);
      PowersMultiply(8, 8 * (a - 1));
      ResidueOfProduct(Pow10(8), Pow10(8 * (a - 1)));
      TenToTheEighth();
      LargeStep(a - 1);
      assert 8 + 8 * (a - 1) == 8 * a;
    }
  }

  lemma ResiduesMissOne(a: nat, b: nat)
    requires a < 9 && b < 8 && (a, b) != (0, 0)
    ensures Large(a) * Small(b) % 97 != 1
  {
  }

  // The order of ten modulo 97 is 96: no shift this search can meet is a whole turn.
  lemma NoPowerIsOne(k: nat)
    requires 0 < k < 66
    ensures Pow10(k) % 97 != 1
  {
    var a, b := k / 8, k % 8;
    SmallResidue(b);
    LargeResidue(a);
    PowersMultiply(8 * a, b);
    ResidueOfProduct(Pow10(8 * a), Pow10(b));
    ResiduesMissOne(a, b);
  }

  lemma {:induction false} WidthBound(s: string)
    requires AllPrinted(s)
    ensures |s| <= Width(s) <= 2 * |s|
    decreases |s|
  {
    if s != [] {
      WidthBound(s[1..]);
    }
  }

  lemma NumOfEnds(u: char, m: string, v: char)
    requires IsDigit(u) && IsDigit(v) && AllPrinted(m)
    ensures Num([u] + m + [v]) == (CharValue(u) * Pow10(Width(m)) + Num(m)) * 10 + CharValue(v)
  {
    NumOfOne(u);
    NumOfOne(v);
    NumJoins([u], m);
    NumJoins([u] + m, [v]);
    assert Pow10(1) == 10;
  }

  lemma EndsArithmetic(u: int, v: int, p: int, n: int)
    ensures (u * p + n) * 10 + v - ((v * p + n) * 10 + u) == (u - v) * (10 * p - 1)
  {
  }

  lemma EndsDifference(u: char, v: char, m: string) returns (turn: int)
    requires IsDigit(u) && IsDigit(v) && AllPrinted(m)
    ensures Num([u] + m + [v]) - Num([v] + m + [u]) == (CharValue(u) - CharValue(v)) * turn
    ensures turn == Pow10(Width(m) + 1) - 1
  {
    NumOfEnds(u, m, v);
    NumOfEnds(v, m, u);
    EndsArithmetic(CharValue(u), CharValue(v), Pow10(Width(m)), Num(m));
    turn := 10 * Pow10(Width(m)) - 1;
  }

  lemma OneLess(x: int)
    requires x % 97 != 1
    ensures (x - 1) % 97 != 0
  {
  }

  // The fourth and fifth characters are the two ends of the number that is checked.
  lemma SwapOfEnds(u: char, v: char, m: string)
    requires IsDigit(u) && IsDigit(v) && u != v && AllPrinted(m) && |m| <= 32
    ensures (Num([u] + m + [v]) - Num([v] + m + [u])) % 97 != 0
  {
    var turn := EndsDifference(u, v, m);
    WidthBound(m);
    NoPowerIsOne(Width(m) + 1);
    OneLess(Pow10(Width(m) + 1));
    SmallFactor(CharValue(u) - CharValue(v), turn);
  }

  /** Swapping two neighbours that differ is caught, wherever they stand, with one exception: past the
      fourth character, a letter beside its twin digit. */
  lemma SwapIsCaught(s: string, i: nat)
    requires ChecksumOk(s) && i + 1 < |s| && s[i] != s[i + 1]
    ensures ChecksumOk(Swapped(s, i)) <==> i >= 4 && Twins(s[i], s[i + 1])
  {
    var t := Swapped(s, i);
    if i >= 4 {
      assert WellFormed(t);
      assert Rearranged(s) == s[4..i] + [s[i], s[i + 1]] + (s[i + 2..] + s[..4]);
      assert Rearranged(t) == s[4..i] + [s[i + 1], s[i]] + (s[i + 2..] + s[..4]);
      SwapWithin(s, i, s[4..i], s[i + 2..] + s[..4]);
    } else if WellFormed(t) {
      assert t[i] == s[i + 1] && t[i + 1] == s[i];
      if i == 3 {
        var m := s[5..] + s[..3];
        assert Rearranged(s) == [s[4]] + m + [s[3]] && Rearranged(t) == [s[3]] + m + [s[4]];
        assert forall k | 0 <= k < |m| :: m[k] == Rearranged(s)[1 + k];
        SwapOfEnds(s[4], s[3], m);
        SameResidue(Num(Rearranged(s)), Num(Rearranged(t)));
      } else {
        assert Rearranged(s) == (s[4..] + s[..i]) + [s[i], s[i + 1]] + s[i + 2..4];
        assert Rearranged(t) == (s[4..] + s[..i]) + [s[i + 1], s[i]] + s[i + 2..4];
        SwapWithin(s, i, s[4..] + s[..i], s[i + 2..4]);
      }
    }
  }

  lemma {:induction false} ZerosSpell(n: nat)
    ensures var zeros := seq(n, i => '0'); AllPrinted(zeros) && Num(zeros) == 0 && Width(zeros) == n
    decreases n
  {
    var zeros := seq(n, i => '0');
    if n > 0 {
      ZerosSpell(n - 1);
      assert zeros == ['0'] + seq(n - 1, i => '0');
      NumOfOne('0');
      NumJoins(['0'], seq(n - 1, i => '0'));
    }
  }

  const MISSED := "GB67B1000000000"

  lemma MissedIsWellFormed()
    ensures WellFormed(MISSED) && Rearranged(MISSED) == "B1" + seq(9, i => '0') + ("GB" + "67")
  {
    assert MISSED[4..] == "B1" + seq(9, i => '0') && MISSED[..4] == "GB" + "67";
  }

  // Two letters and a digit pair around zeros, spelled out.
  lemma PartsSpell(head: string, zeros: string, country: string, check: string)
    requires AllPrinted(head) && AllPrinted(zeros) && AllPrinted(country) && AllPrinted(check)
    requires Num(head) == 111 && Num(zeros) == 0 && Num(country) == 1611 && Num(check) == 67
    requires Width(zeros) == 9 && Width(country) == 4 && Width(check) == 2
    ensures Num(head + zeros + (country + check)) == 111000000000161167
  {
    NumJoins(head, zeros);
    NumJoins(country, check);
    NumJoins(head + zeros, country + check);
    assert Pow10(9) == 1000000000 && Pow10(6) == 1000000 && Pow10(2) == 100;
  }

  lemma PairSpells(x: char, y: char, a: nat, b: nat)
    requires Printed(x) && Printed(y) && CharValue(x) == a && CharValue(y) == b
    ensures Num([x, y]) == a * (if b < 10 then 10 else 100) + b
    ensures Width([x, y]) == (if a < 10 then 1 else 2) + if b < 10 then 1 else 2
  {
    NumOfTwo(x, y);
    NumOfOne(x);
    NumOfOne(y);
  }

  lemma NumberOf(s: string, zeros: string)
    requires WellFormed(s) && Rearranged(s) == ['B', '1'] + zeros + (['G', 'B'] + ['6', '7'])
    requires AllPrinted(zeros) && Num(zeros) == 0 && Width(zeros) == 9
    ensures ChecksumOk(s)
  {
    PairSpells('B', '1', 11, 1);
    PairSpells('G', 'B', 16, 11);
    PairSpells('6', '7', 6, 7);
    PartsSpell(['B', '1'], zeros, ['G', 'B'], ['6', '7']);
  }

  lemma MissedIsAccepted() returns (s: string)
    ensures s == MISSED && ChecksumOk(s)
  {
    s := MISSED;
    MissedIsWellFormed();
    ZerosSpell(9);
    NumberOf(s, seq(9, i => '0'));
  }

  lemma MissedReads()
    ensures |MISSED| == 15 && MISSED[4] == 'B' && MISSED[5] == '1' && Swapped(MISSED, 4) == "GB671B000000000"
  {
  }

  /** Such a swap: both GB67B1000000000 and GB671B000000000 are accepted. */
  lemma SomeSwapIsMissed() returns (s: string, t: string)
    ensures s == "GB67B1000000000" && t == "GB671B000000000" && t == Swapped(s, 4)
    ensures ChecksumOk(s) && ChecksumOk(t) && s != t
  {
    s := MissedIsAccepted();
    MissedReads();
    t := Swapped(s, 4);
    SwapIsCaught(s, 4);
  }

  // ---- the search ----

  // The space, the no-break space, the narrow no-break space and the thin space.
  predicate Spacer(c: char) {
    c in {' ', '\U{00a0}', '\U{202f}', '\U{2009}'}
  }

  predicate Alnum(c: char) { IsDigit(c) || IsUpper(c) || IsLower(c) }

  function Upper(c: char): (u: char)
    requires Alnum(c)
  {
    if IsLower(c) then (c as int - 'a' as int + 'A' as int) as char else c
  }

  // What is gathered from a text of which `n` characters were taken already.
  function Gathered(text: string, n: nat): (chars: string)
    decreases |text|
  {
    if text == [] || n >= 34 then []
    else if Alnum(text[0]) then [Upper(text[0])] + Gathered(text[1..], n + 1)
    else if Spacer(text[0]) && n > 0 then Gathered(text[1..], n)
    else []
  }

  // A text that is gathered to its end.
  predicate Runs(text: string, n: nat)
    decreases |text|
  {
    text == "" || (if Alnum(text[0]) then n < 34 && Runs(text[1..], n + 1)
                   else Spacer(text[0]) && 0 < n < 34 && Runs(text[1..], n))
  }

  // Where one text ends, the gathering goes on into the next.
  lemma {:induction false} RunsOn(text: string, rest: string, n: nat)
    requires Runs(text, n)
    ensures Gathered(text + rest, n) == Gathered(text, n) + Gathered(rest, n + |Gathered(text, n)|)
    ensures Runs(rest, n + |Gathered(text, n)|) ==> Runs(text + rest, n)
    decreases |text|
  {
    if text == "" {
      assert text + rest == rest;
    } else {
      assert (text + rest)[0] == text[0] && (text + rest)[1..] == text[1..] + rest;
      RunsOn(text[1..], rest, if Alnum(text[0]) then n + 1 else n);
    }
  }

  datatype Hit = Hit(candidate: string, begin: nat, end: nat)

  // The places of the gathered characters, in order: cut after any of them, the text gathers up to it.
  predicate Places(line: string, start: nat, chars: string, positions: seq<nat>) {
    && |positions| == |chars|
    && (forall j, k | 0 <= j < k < |positions| :: positions[j] < positions[k])
    && (forall k | 0 <= k < |positions| ::
          && start <= positions[k] < |line| && Alnum(line[positions[k]])
          && Gathered(line[start..positions[k] + 1], 0) == chars[..k + 1])
  }

  // One more character is gathered, or passed over.
  lemma OneMore(line: string, start: nat, i: nat)
    requires start <= i < |line| && Runs(line[start..i], 0) && |Gathered(line[start..i], 0)| < 34
    requires Alnum(line[i]) || (Spacer(line[i]) && Gathered(line[start..i], 0) != [])
    ensures Runs(line[start..i + 1], 0)
    ensures Gathered(line[start..i + 1], 0)
            == Gathered(line[start..i], 0) + if Alnum(line[i]) then [Upper(line[i])] else []
  {
    var n := |Gathered(line[start..i], 0)|;
    assert line[start..i + 1] == line[start..i] + [line[i]];
    assert [line[i]][1..] == "";
    assert Runs([line[i]], n);
    RunsOn(line[start..i], [line[i]], 0);
  }

  // And where it stops, all of the line is gathered.
  lemma StopsHere(line: string, start: nat, i: nat)
    requires start <= i <= |line| && Runs(line[start..i], 0)
    requires i == |line| || |Gathered(line[start..i], 0)| >= 34
             || (!Alnum(line[i]) && !(Spacer(line[i]) && Gathered(line[start..i], 0) != []))
    ensures Gathered(line[start..], 0) == Gathered(line[start..i], 0)
  {
    assert line[start..] == line[start..i] + line[i..];
    RunsOn(line[start..i], line[i..], 0);
    assert Gathered(line[i..], |Gathered(line[start..i], 0)|) == "";
  }

  lemma PlacesGrow(line: string, start: nat, chars: string, positions: seq<nat>, i: nat)
    requires Places(line, start, chars, positions) && start <= i < |line| && Alnum(line[i])
    requires forall k | 0 <= k < |positions| :: positions[k] < i
    requires Gathered(line[start..i + 1], 0) == chars + [Upper(line[i])]
    ensures Places(line, start, chars + [Upper(line[i])], positions + [i])
  {
    var more, further := chars + [Upper(line[i])], positions + [i];
    forall k | 0 <= k < |further|
      ensures Gathered(line[start..further[k] + 1], 0) == more[..k + 1]
    {
      if k < |positions| {
        assert more[..k + 1] == chars[..k + 1];
      } else {
        assert more[..k + 1] == more;
      }
    }
  }

  method Gather(line: string, start: nat) returns (chars: string, positions: seq<nat>)
    requires start <= |line|
    ensures chars == Gathered(line[start..], 0) && |chars| <= 34
    ensures Places(line, start, chars, positions)
  {
    chars, positions := [], [];
    var i := start;
    while i < |line| && |chars| < 34
      invariant start <= i <= |line| && |chars| <= 34
      invariant Runs(line[start..i], 0) && chars == Gathered(line[start..i], 0)
      invariant Places(line, start, chars, positions) && forall k | 0 <= k < |positions| :: positions[k] < i
    {
      var c := line[i];
      if !Alnum(c) && !(Spacer(c) && chars != []) {
        break;
      }
      OneMore(line, start, i);
      if Alnum(c) {
        PlacesGrow(line, start, chars, positions, i);
        chars, positions := chars + [Upper(c)], positions + [i];
      }
      i := i + 1;
    }
    StopsHere(line, start, i);
  }

  predicate Accepts(chars: string, length: nat) {
    15 <= length <= |chars| && ChecksumOk(chars[..length])
  }

  /** One start of `check_iban`: the longest run of gathered characters that passes the check, if any, and
      the stretch of the line it was gathered from, up to its last character. */
  method HitAt(line: string, start: nat) returns (hit: Option<Hit>)
    requires start <= |line|
    ensures var chars := Gathered(line[start..], 0);
            && (hit.None? <==> forall length: nat :: !Accepts(chars, length))
            && (hit.Some? ==>
                  && hit.value.candidate <= chars && Accepts(chars, |hit.value.candidate|)
                  && (forall length: nat | |hit.value.candidate| < length :: !Accepts(chars, length)))
    ensures hit.Some? ==>
              && hit.value.begin == start < hit.value.end <= |line| && Alnum(line[hit.value.end - 1])
              && Gathered(line[start..hit.value.end], 0) == hit.value.candidate
  {
    var chars, positions := Gather(line, start);
    var length := |chars|;
    while length > 14
      invariant length <= |chars|
      invariant forall longer: nat | longer > length :: !Accepts(chars, longer)
    {
      if ChecksumOk(chars[..length]) {
        assert Accepts(chars, length);
        return Some(Hit(chars[..length], start, positions[length - 1] + 1));
      }
      length := length - 1;
    }
    hit := None;
  }

  // A letter may be printed in either case.
  ghost predicate PrintedAs(c: char, u: char) {
    || (('0' <= u <= '9' || 'A' <= u <= 'Z') && c == u)
    || ('A' <= u <= 'Z' && c as int == u as int + 32)
  }

  ghost predicate Gap(c: char) {
    c == ' ' || c == '\U{00a0}' || c == '\U{202f}' || c == '\U{2009}'
  }

  // A text prints a number: its characters in either case, with spacers anywhere but in front.
  ghost predicate Prints(text: string, iban: string, n: nat)
    decreases |text|
  {
    if text == [] then iban == []
    else || (iban != [] && PrintedAs(text[0], iban[0]) && Prints(text[1..], iban[1..], n + 1))
         || (Gap(text[0]) && n > 0 && Prints(text[1..], iban, n))
  }

  lemma PrintedIsUpper(c: char, u: char)
    ensures PrintedAs(c, u) <==> Alnum(c) && Upper(c) == u
    ensures Gap(c) <==> Spacer(c)
  {
  }

  lemma {:induction false} PrintedIsGathered(text: string, rest: string, iban: string, n: nat)
    requires Prints(text, iban, n) && n + |iban| <= 34
    ensures iban <= Gathered(text + rest, n)
    decreases |text|
  {
    if iban != [] {
      assert text != [];
      assert (text + rest)[0] == text[0] && (text + rest)[1..] == text[1..] + rest;
      PrintedIsUpper(text[0], iban[0]);
      if Alnum(text[0]) {
        PrintedIsGathered(text[1..], rest, iban[1..], n + 1);
        assert iban == [iban[0]] + iban[1..];
      } else {
        PrintedIsGathered(text[1..], rest, iban, n);
      }
    }
  }

  /** However an account number is spaced and cased, and whatever follows it, a search that starts at it
      accepts something at least as long. */
  lemma PrintingHidesNothing(text: string, rest: string, iban: string)
    requires ChecksumOk(iban) && Prints(text, iban, 0)
    ensures Accepts(Gathered(text + rest, 0), |iban|)
  {
    PrintedIsGathered(text, rest, iban, 0);
    assert Gathered(text + rest, 0)[..|iban|] == iban;
  }
}

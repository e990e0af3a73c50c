/** The generated names: "svc-" followed by the dash-joined decimal positions on the path from the root. */
module Names {
  const DIGITS := "0123456789"

  function Decimal(n: nat): (s: string)
    ensures s != [] && '-' !in s
    ensures |s| == 1 <==> n < 10
  {
    if n < 10 then [DIGITS[n]] else Decimal(n / 10) + [DIGITS[n % 10]]
  }

  /** The number that a text of decimal digits stands for, read from the left. */
  function Value(s: string): int {
    if s == "" then 0 else 10 * Value(s[..|s| - 1]) + (s[|s| - 1] as int - '0' as int)
  }

  /** Digits only, and no leading zero in front of others. */
  predicate IsNumeral(s: string) {
    && s != "" && (forall c <- s :: '0' <= c <= '9')
    && (|s| > 1 ==> s[0] != '0')
  }

  lemma DigitReads(n: nat)
    requires n < 10
    ensures DIGITS[n] as int - '0' as int == n && '0' <= DIGITS[n] <= '9'
  {
  }

  /** str(n) is the one numeral that reads back as `n`. */
  lemma {:induction false} DecimalReads(n: nat)
    ensures IsNumeral(Decimal(n)) && Value(Decimal(n)) == n
    ensures n > 0 ==> Decimal(n)[0] != '0'
  {
    DigitReads(n % 10);
    if n < 10 {
      assert Decimal(n)[..0] == "";
    } else {
      DecimalReads(n / 10);
      assert Decimal(n)[..|Decimal(n)| - 1] == Decimal(n / 10);
    }
  }

  lemma DigitInjective(i: nat, j: nat)
    requires i < 10 && j < 10 && DIGITS[i] == DIGITS[j]
    ensures i == j
  {
  }

  lemma LastCharacter(s: string, x: char, t: string, y: char)
    requires s + [x] == t + [y]
    ensures s == t && x == y
  {
    assert (s + [x])[|s|] == x && (t + [y])[|t|] == y;
    assert (s + [x])[..|s|] == s && (t + [y])[..|t|] == t;
  }

  lemma {:induction false} DecimalInjective(a: nat, b: nat)
    requires Decimal(a) == Decimal(b)
    ensures a == b
  {
    if a >= 10 {
      LastCharacter(Decimal(a / 10), DIGITS[a % 10], Decimal(b / 10), DIGITS[b % 10]);
      DecimalInjective(a / 10, b / 10);
      DigitInjective(a % 10, b % 10);
    } else {
      assert Decimal(a)[0] == DIGITS[a] && Decimal(b)[0] == DIGITS[b];
      DigitInjective(a, b);
    }
  }

  /** [str(k) for k in path] */
  function Strings(str: nat -> string, path: seq<nat>): (ss: seq<string>)
    ensures |ss| == |path|
  {
    seq(|path|, i requires 0 <= i < |path| => str(path[i]))
  }

  /** '-'.join(parts) */
  function Join(parts: seq<string>): string {
    if parts == [] then ""
    else if |parts| == 1 then parts[0]
    else Join(parts[..|parts| - 1]) + "-" + parts[|parts| - 1]
  }

  /** 'svc-{}'.format('-'.join(parts)) */
  function ServiceName(parts: seq<string>): string {
    "svc-" + Join(parts)
  }

  function Name(path: seq<nat>): string {
    ServiceName(Strings(Decimal, path))
  }

  lemma DashesUpTo(a: string, x: string)
    requires '-' !in x
    ensures var s := a + "-" + x; s[|a|] == '-' && forall k | |a| < k < |s| :: s[k] != '-'
  {
    var s := a + "-" + x;
    forall k | |a| < k < |s| ensures s[k] != '-' {
      assert s[k] == x[k - |a| - 1];
    }
  }

  /** A text splits at its last dash in one way only. */
  lemma LastDash(a: string, x: string, b: string, y: string)
    requires '-' !in x && '-' !in y
    requires a + "-" + x == b + "-" + y
    ensures a == b && x == y
  {
    var s, t := a + "-" + x, b + "-" + y;
    DashesUpTo(a, x);
    DashesUpTo(b, y);
    assert |a| == |b|;
    assert s[..|a|] == a && t[..|b|] == b;
    assert s[|a| + 1..] == x && t[|b| + 1..] == y;
  }

  predicate DashFree(parts: seq<string>) {
    forall i | 0 <= i < |parts| :: '-' !in parts[i]
  }

  lemma {:induction false} JoinInjective(a: seq<string>, b: seq<string>)
    requires a != [] && b != [] && DashFree(a) && DashFree(b)
    requires Join(a) == Join(b)
    ensures a == b
    decreases |a|
  {
    if |a| == 1 {
      assert a == [a[0]] && b == [b[0]];
    } else {
      var m, n := |a| - 1, |b| - 1;
      LastDash(Join(a[..m]), a[m], Join(b[..n]), b[n]);
      JoinInjective(a[..m], b[..n]);
      assert a == a[..m] + [a[m]] && b == b[..n] + [b[n]];
    }
  }

  lemma OneMorePart(parts: seq<string>, part: string)
    requires parts != []
    ensures ServiceName(parts + [part]) == ServiceName(parts) + "-" + part
  {
    assert (parts + [part])[..|parts|] == parts;
    assert "svc-" + (Join(parts) + "-" + part) == "svc-" + Join(parts) + "-" + part;
  }

  lemma StringsOfChild(str: nat -> string, path: seq<nat>, k: nat)
    ensures Strings(str, path + [k]) == Strings(str, path) + [str(k)]
  {
  }

  /** Different paths get different names. */
  lemma NameInjective(p: seq<nat>, q: seq<nat>)
    requires p != [] && q != [] && Name(p) == Name(q)
    ensures p == q
  {
    var a, b := Strings(Decimal, p), Strings(Decimal, q);
    assert ServiceName(a)[4..] == Join(a) && ServiceName(b)[4..] == Join(b);
    JoinInjective(a, b);
    forall i | 0 <= i < |p| ensures p[i] == q[i] {
      assert a[i] == Decimal(p[i]) && b[i] == Decimal(q[i]);
      DecimalInjective(p[i], q[i]);
    }
  }
}

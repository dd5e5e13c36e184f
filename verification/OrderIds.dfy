/** Deterministic client order ids: shared/mezna_shared/order_ids.py.  The truncated
    SHA-256 digest is taken as collision-free, so an id is as good as the text it hashes. */
module OrderIds {

  /** Keyed: derived from the leg's text.  Random: a fresh uuid4, never handed out twice. */
  datatype OrderId = Keyed(text: string) | Random(nonce: nat)

  function Digit(n: nat): char
    requires n < 10
  {
    "0123456789"[n]
  }

  /** Decimal notation, as an f-string prints a leg index. */
  function Decimal(n: nat): string {
    if n < 10 then [Digit(n)] else Decimal(n / 10) + [Digit(n % 10)]
  }

  function Join(a: string, b: string): string {
    a + ":" + b
  }

  /** The leg index, side and symbol, colon-separated. */
  function LegText(leg: nat, side: string, symbol: string): string {
    Join(Decimal(leg), Join(side, symbol))
  }

  function KeyText(opportunity: string, leg: nat, side: string, symbol: string): string {
    Join(opportunity, LegText(leg, side, symbol))
  }

  /** Without an opportunity there is nothing stable to key on. */
  function MakeOrderId(opportunity: string, leg: nat, side: string, symbol: string, nonce: nat): OrderId {
    if opportunity == "" then Random(nonce) else Keyed(KeyText(opportunity, leg, side, symbol))
  }

  predicate IsSide(side: string) {
    side == "buy" || side == "sell"
  }

  lemma {:induction false} DecimalHasDigits(n: nat)
    ensures Decimal(n) != "" && forall i :: 0 <= i < |Decimal(n)| ==> '0' <= Decimal(n)[i] <= '9'
  {
    if n >= 10 {
      DecimalHasDigits(n / 10);
    }
  }

  lemma {:induction false} DecimalInjective(m: nat, n: nat)
    requires Decimal(m) == Decimal(n)
    ensures m == n
  {
    LastDigit(m);
    LastDigit(n);
    if m >= 10 && n >= 10 {
      DecimalInjective(m / 10, n / 10);
    }
  }

  lemma LastDigit(n: nat)
    ensures var s := Decimal(n);
            && s != "" && s[|s| - 1] == Digit(n % 10)
            && (|s| == 1 <==> n < 10)
            && (n >= 10 ==> s[..|s| - 1] == Decimal(n / 10))
  {
  }

  /** The number that decimal digits stand for. */
  function Value(digits: string): nat
    requires forall i :: 0 <= i < |digits| ==> '0' <= digits[i] <= '9'
  {
    if digits == "" then 0 else 10 * Value(digits[..|digits| - 1]) + (digits[|digits| - 1] as int - '0' as int)
  }

  lemma {:induction false} DecimalValue(n: nat)
    ensures (forall i :: 0 <= i < |Decimal(n)| ==> '0' <= Decimal(n)[i] <= '9') && Value(Decimal(n)) == n
  {
    DecimalHasDigits(n);
    LastDigit(n);
    DigitValue(n % 10);
    if n >= 10 {
      DecimalValue(n / 10);
    } else {
      assert Decimal(n)[..0] == "";
    }
  }

  lemma DigitValue(n: nat)
    requires n < 10
    ensures Digit(n) as int == '0' as int + n
  {
  }

  /** Text before the first colon is determined by the whole. */
  lemma FirstColon(a: string, x: string, b: string, y: string)
    requires ':' !in a && ':' !in b
    requires Join(a, x) == Join(b, y)
    ensures a == b && x == y
  {
    var s := Join(a, x);
    assert s[|a|] == ':' && s[|b|] == ':';
    assert forall i :: 0 <= i < |a| ==> s[i] == a[i] && a[i] in a;
    assert forall i :: 0 <= i < |b| ==> s[i] == b[i] && b[i] in b;
    assert |a| == |b|;
    assert a == s[..|a|] && b == s[..|b|];
    assert x == s[|a| + 1..] && y == s[|b| + 1..];
  }

  lemma JoinAssociative(a: string, b: string, c: string)
    ensures Join(Join(a, b), c) == Join(a, Join(b, c))
  {
  }

  lemma DecimalHasNoColon(n: nat)
    ensures ':' !in Decimal(n) && !IsSide(Decimal(n))
  {
    hide Decimal;
    DecimalHasDigits(n);
    assert '0' <= Decimal(n)[0] <= '9';
  }

  lemma LegTextInjective(l: nat, s: string, y: string, l': nat, s': string, y': string)
    requires IsSide(s) && IsSide(s') && LegText(l, s, y) == LegText(l', s', y')
    ensures l == l' && s == s' && y == y'
  {
    hide Join, Decimal;
    DecimalHasNoColon(l);
    DecimalHasNoColon(l');
    FirstColon(Decimal(l), Join(s, y), Decimal(l'), Join(s', y'));
    FirstColon(s, y, s', y');
    DecimalInjective(l, l');
  }

  /** Colon-free opportunity ids: one id per leg, whatever characters the symbols hold. */
  lemma OrderIdInjective(o: string, l: nat, s: string, y: string, n: nat, o': string, l': nat, s': string, y': string, n': nat)
    requires IsSide(s) && IsSide(s') && ':' !in o && ':' !in o' && o != ""
    ensures MakeOrderId(o, l, s, y, n) == MakeOrderId(o', l', s', y', n') <==> (o, l, s, y) == (o', l', s', y')
  {
    hide Join, LegText;
    if MakeOrderId(o, l, s, y, n) == MakeOrderId(o', l', s', y', n') {
      FirstColon(o, LegText(l, s, y), o', LegText(l', s', y'));
      LegTextInjective(l, s, y, l', s', y');
    }
  }

  // ---- Opportunity ids that do contain colons ------------------------------

  /** A leg of o hashes the same text as a leg of a shorter opportunity id. */
  ghost predicate Shadowed(o: string) {
    exists p: string, l: nat, s: string, y: string, l': nat, s': string, y': string ::
      p != "" && |p| < |o| && IsSide(s) && IsSide(s') && KeyText(o, l, s, y) == KeyText(p, l', s', y')
  }

  /** o continues a shorter id with a leg index and a side. */
  ghost predicate EmbedsLeg(o: string) {
    exists p: string, n: nat, s: string, rest: string :: p != "" && IsSide(s) && Embeds(o, p, n, s, rest)
  }

  ghost predicate Embeds(o: string, p: string, n: nat, s: string, rest: string) {
    o == Join(p, Join(Decimal(n), s)) || o == Join(p, LegText(n, s, rest))
  }

  /** The longer of two ids with equal keys continues the shorter one. */
  lemma LongerContinues(o: string, t: string, p: string, t': string) returns (u: string)
    requires |p| < |o| && Join(o, t) == Join(p, t')
    ensures o == Join(p, u) && Join(u, t) == t'
  {
    u := o[|p| + 1..];
    var w := Join(o, t);
    assert w[..|p|] == p && w[|p|] == ':' && w[|p| + 1..] == t';
    assert o == w[..|o|] && o[|p|] == ':';
    assert o[..|p|] == p;
    assert o == o[..|p|] + [o[|p|]] + u;
    assert w[|p| + 1..] == Join(u, t);
  }

  lemma SplitAtColon(s: string) returns (a: string, b: string)
    requires ':' in s
    ensures s == Join(a, b) && ':' !in a
  {
    var i := 0;
    while s[i] != ':'
      invariant i < |s| && ':' !in s[..i] && ':' in s[i..]
      decreases |s| - i
    {
      i := i + 1;
    }
    a, b := s[..i], s[i + 1..];
    assert s == s[..i] + [s[i]] + s[i + 1..];
  }

  /** A continuation that makes two legs agree starts with the other leg's index and side. */
  lemma ContinuationEmbedsLeg(u: string, l: nat, s: string, y: string, l': nat, s': string, y': string)
    returns (rest: string)
    requires IsSide(s) && IsSide(s') && Join(u, LegText(l, s, y)) == LegText(l', s', y')
    ensures u == Join(Decimal(l'), s') || u == LegText(l', s', rest)
  {
    hide Join, Decimal;
    rest := "";
    DecimalHasNoColon(l);
    DecimalHasNoColon(l');
    var tail := LegText(l, s, y);
    if ':' !in u {
      FirstColon(u, tail, Decimal(l'), Join(s', y'));
      FirstColon(Decimal(l), Join(s, y), s', y');
      assert false;
    } else {
      var a, v := SplitAtColon(u);
      JoinAssociative(a, v, tail);
      FirstColon(a, Join(v, tail), Decimal(l'), Join(s', y'));
      if ':' !in v {
        FirstColon(v, tail, s', y');
      } else {
        var b, w := SplitAtColon(v);
        rest := w;
        JoinAssociative(b, w, tail);
        FirstColon(b, Join(w, tail), s', y');
      }
    }
  }

  lemma EmbedsLegIsShadowed(o: string, p: string, n: nat, s: string, rest: string)
    requires p != "" && IsSide(s) && Embeds(o, p, n, s, rest)
    ensures Shadowed(o)
  {
    var tail := LegText(0, "buy", "X");
    assert |p| < |o|;
    hide Join, Decimal;
    if o == Join(p, Join(Decimal(n), s)) {
      JoinAssociative(p, Join(Decimal(n), s), tail);
      JoinAssociative(Decimal(n), s, tail);
      assert KeyText(o, 0, "buy", "X") == KeyText(p, n, s, tail);
    } else {
      JoinAssociative(p, LegText(n, s, rest), tail);
      JoinAssociative(Decimal(n), Join(s, rest), tail);
      JoinAssociative(s, rest, tail);
      assert KeyText(o, 0, "buy", "X") == KeyText(p, n, s, Join(rest, tail));
    }
  }

  /** An opportunity id collides with a shorter one exactly when it embeds a leg. */
  lemma ShadowedIffEmbedsLeg(o: string)
    ensures Shadowed(o) <==> EmbedsLeg(o)
  {
    hide Join, Decimal, LegText;
    if Shadowed(o) {
      var p: string, l: nat, s: string, y: string, l': nat, s': string, y': string :|
        p != "" && |p| < |o| && IsSide(s) && IsSide(s') && KeyText(o, l, s, y) == KeyText(p, l', s', y');
      var u := LongerContinues(o, LegText(l, s, y), p, LegText(l', s', y'));
      var rest := ContinuationEmbedsLeg(u, l, s, y, l', s', y');
      assert Embeds(o, p, l', s', rest);
    }
    if EmbedsLeg(o) {
      var p: string, n: nat, s: string, rest: string :| p != "" && IsSide(s) && Embeds(o, p, n, s, rest);
      EmbedsLegIsShadowed(o, p, n, s, rest);
    }
  }
}

/** The textual keys of the system, built with `:`, and why distinct parts give distinct texts. */
module KeyText {
  import opened Common
  import opened Tables

  function Digit(d: nat): (c: char)
    requires d < 10
    ensures c != ':'
  {
    ('0' as int + d) as char
  }

  /** `str(n)` for a count. */
  function Decimal(n: nat): (s: string)
    ensures |s| > 0 && ':' !in s
  {
    if n < 10 then [Digit(n)] else Decimal(n / 10) + [Digit(n % 10)]
  }

  lemma {:induction false} DecimalInjective(m: nat, n: nat)
    requires Decimal(m) == Decimal(n)
    ensures m == n
  {
    if m >= 10 && n >= 10 {
      var a, b := Decimal(m / 10), Decimal(n / 10);
      assert Decimal(m)[|a|] == Digit(m % 10) && Decimal(n)[|b|] == Digit(n % 10);
      assert Decimal(m)[..|a|] == a && Decimal(n)[..|b|] == b;
      DecimalInjective(m / 10, n / 10);
    }
  }

  /** The number a text of digits stands for. */
  function NumberOf(s: string): int {
    if s == "" then 0 else 10 * NumberOf(s[..|s| - 1]) + (s[|s| - 1] as int - '0' as int)
  }

  /** A count is written in decimal digits, without zeros in front. */
  lemma {:induction false} DecimalIs(n: nat)
    ensures NumberOf(Decimal(n)) == n
    ensures forall i :: 0 <= i < |Decimal(n)| ==> '0' <= Decimal(n)[i] <= '9'
    ensures Decimal(n)[0] == '0' ==> n == 0
  {
    if n < 10 {
      assert Decimal(n)[..0] == "";
    } else {
      DecimalIs(n / 10);
      assert Decimal(n)[..|Decimal(n)| - 1] == Decimal(n / 10);
    }
  }

  /** Text split at its last colon. */
  lemma LastColon(a: string, b: string, c: string, d: string)
    requires ':' !in b && ':' !in d
    requires a + ":" + b == c + ":" + d
    ensures a == c && b == d
  {
    var s := a + ":" + b;
    assert s[|a|] == ':' && s[|c|] == ':';
    assert forall i :: |a| < i < |s| ==> s[i] != ':';
    assert forall i :: |c| < i < |s| ==> s[i] != ':';
    assert s[..|a|] == a && s[..|c|] == c;
    assert s[|a| + 1..] == b && s[|c| + 1..] == d;
  }

  /** Text split at its first colon. */
  lemma FirstColon(a: string, b: string, c: string, d: string)
    requires ':' !in a && ':' !in c
    requires a + ":" + b == c + ":" + d
    ensures a == c && b == d
  {
    var s := a + ":" + b;
    assert s[|a|] == ':' && s[|c|] == ':';
    assert forall i :: 0 <= i < |a| ==> s[i] != ':';
    assert forall i :: 0 <= i < |c| ==> s[i] != ':';
    assert s[..|a|] == a && s[..|c|] == c;
    assert s[|a| + 1..] == b && s[|c| + 1..] == d;
  }

  function KindText(k: AlertKind): (s: string)
    ensures ':' !in s
  {
    match k
    case Reminder => "reminder"
    case Due => "due"
    case Escalation => "escalation"
  }

  /** An alert's idempotency key as stored, for some rendering of ids and instants. */
  function AlertKeyText(k: AlertKey, idText: Id -> string, timeText: Time -> string): string {
    idText(k.target) + ":" + timeText(k.dueAt) + ":" + KindText(k.kind) + ":" + Decimal(k.level)
  }

  /** Two alerts share a stored key exactly when they share target, due time, kind and level. Ids
      render without a colon; instants may contain them. */
  lemma AlertKeyTextInjective(a: AlertKey, b: AlertKey, idText: Id -> string, timeText: Time -> string)
    requires forall x :: ':' !in idText(x)
    requires forall x, y :: idText(x) == idText(y) ==> x == y
    requires forall x, y :: timeText(x) == timeText(y) ==> x == y
    ensures AlertKeyText(a, idText, timeText) == AlertKeyText(b, idText, timeText) <==> a == b
  {
    if AlertKeyText(a, idText, timeText) == AlertKeyText(b, idText, timeText) {
      var a1, b1 := idText(a.target) + ":" + timeText(a.dueAt), idText(b.target) + ":" + timeText(b.dueAt);
      LastColon(a1 + ":" + KindText(a.kind), Decimal(a.level), b1 + ":" + KindText(b.kind), Decimal(b.level));
      LastColon(a1, KindText(a.kind), b1, KindText(b.kind));
      FirstColon(idText(a.target), timeText(a.dueAt), idText(b.target), timeText(b.dueAt));
      DecimalInjective(a.level, b.level);
      KindTextInjective(a.kind, b.kind);
    }
  }

  lemma KindTextInjective(a: AlertKind, b: AlertKind)
    requires KindText(a) == KindText(b)
    ensures a == b
  {
  }
}

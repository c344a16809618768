/** Object names as text: zero-padded decimal fields between separators. */
module ObjectKeys {
  import opened Ordering
  import opened BronzeLog
  import opened Calendar

  function Digit(d: nat): char
    requires d < 10
  {
    (48 + d) as char
  }

  predicate IsDigit(c: char) { '0' <= c <= '9' }

  predicate AllDigits(s: string) { forall i :: 0 <= i < |s| ==> IsDigit(s[i]) }

  /** `f"{n:0{w}d}"`: at least w digits, more when n needs them. */
  function Pad(n: nat, w: nat): (s: string)
    ensures s != [] && AllDigits(s)
    decreases n + w
  {
    (if n < 10 && w <= 1 then "" else Pad(n / 10, if w > 0 then w - 1 else 0)) + [Digit(n % 10)]
  }

  function ValueOf(s: string): nat
    requires AllDigits(s)
  {
    if s == [] then 0 else 10 * ValueOf(s[..|s| - 1]) + (s[|s| - 1] as int - 48)
  }

  lemma {:induction false} PadRoundTrip(n: nat, w: nat)
    ensures ValueOf(Pad(n, w)) == n
    decreases n + w
  {
    var s := Pad(n, w);
    if n < 10 && w <= 1 {
      assert s[..|s| - 1] == [];
    } else {
      var w' := if w > 0 then w - 1 else 0;
      assert s[..|s| - 1] == Pad(n / 10, w');
      PadRoundTrip(n / 10, w');
    }
  }

  /** A run of digits followed by something else is read back in one way. */
  lemma {:induction false} DigitsEndOnce(a: string, b: string, x: string, y: string)
    requires AllDigits(a) && AllDigits(b) && a + x == b + y
    requires x != [] && y != [] && !IsDigit(x[0]) && !IsDigit(y[0])
    ensures a == b && x == y
  {
    var t := a + x;
    assert t[|a|] == x[0] && t[|b|] == y[0];
    assert forall i | 0 <= i < |a| :: t[i] == a[i];
    assert forall i | 0 <= i < |b| :: t[i] == b[i];
    assert |a| == |b|;
    assert a == t[..|a|] && b == t[..|b|] && x == t[|a|..] && y == t[|b|..];
  }

  /** One numeric field of a name. */
  function Field(prefix: string, n: nat, w: nat, rest: string): (s: string)
    ensures |s| > |prefix| + |rest|
    ensures prefix != [] ==> s[0] == prefix[0]
  {
    prefix + Pad(n, w) + rest
  }

  lemma FieldInjective(prefix: string, w: nat, n: nat, m: nat, x: string, y: string)
    requires Field(prefix, n, w, x) == Field(prefix, m, w, y)
    requires x != [] && y != [] && !IsDigit(x[0]) && !IsDigit(y[0])
    ensures n == m && x == y
  {
    assert Pad(n, w) + x == Field(prefix, n, w, x)[|prefix|..];
    assert Pad(m, w) + y == Field(prefix, m, w, y)[|prefix|..];
    DigitsEndOnce(Pad(n, w), Pad(m, w), x, y);
    PadRoundTrip(n, w);
    PadRoundTrip(m, w);
  }

  function RangeText(first: nat, last: nat): string
  {
    Field("-", first, 12, Field("-", last, 12, ".parquet"))
  }

  function DateText(prefix: string, d: Date, rest: string): string
  {
    Field(prefix, d.year, 4, Field("-", d.month, 2, Field("-", d.day, 2, rest)))
  }

  /** `bronze_key`: the slot is an hour number, so its day goes through the calendar and its hour is a field. */
  function BronzeKeyText(k: Key): string
    requires k.partition >= 0 && Datable(k.slot / 24)
  {
    DateText("bronze/dt=", DateOf(k.slot / 24),
      Field("/hr=", k.slot % 24, 2, Field("/part-", k.partition, 4, RangeText(k.first, k.last))))
  }

  /** `quarantine_key`: the slot is a day number. */
  function QuarantineKeyText(k: Key): string
    requires k.partition >= 0 && Datable(k.slot)
  {
    DateText("quarantine/dt=", DateOf(k.slot), Field("/part-", k.partition, 4, RangeText(k.first, k.last)))
  }

  lemma DateTextInjective(prefix: string, a: Date, b: Date, x: string, y: string)
    requires DateText(prefix, a, x) == DateText(prefix, b, y)
    requires x != [] && y != [] && !IsDigit(x[0]) && !IsDigit(y[0])
    ensures a == b && x == y
  {
    var xd, yd := Field("-", a.day, 2, x), Field("-", b.day, 2, y);
    var xm, ym := Field("-", a.month, 2, xd), Field("-", b.month, 2, yd);
    FieldInjective(prefix, 4, a.year, b.year, xm, ym);
    FieldInjective("-", 2, a.month, b.month, xd, yd);
    FieldInjective("-", 2, a.day, b.day, x, y);
  }

  lemma RangeTextInjective(first: nat, last: nat, first': nat, last': nat)
    requires RangeText(first, last) == RangeText(first', last')
    ensures first == first' && last == last'
  {
    FieldInjective("-", 12, first, first', Field("-", last, 12, ".parquet"), Field("-", last', 12, ".parquet"));
    FieldInjective("-", 12, last, last', ".parquet", ".parquet");
  }

  /** Two bronze names are the same text exactly when hour, partition, first and last offset all agree, for offsets of any size. */
  lemma BronzeKeyTextInjective(a: Key, b: Key)
    requires a.partition >= 0 && b.partition >= 0 && Datable(a.slot / 24) && Datable(b.slot / 24)
    ensures BronzeKeyText(a) == BronzeKeyText(b) <==> a == b
  {
    if BronzeKeyText(a) == BronzeKeyText(b) {
      var ra, rb := RangeText(a.first, a.last), RangeText(b.first, b.last);
      var pa, pb := Field("/part-", a.partition, 4, ra), Field("/part-", b.partition, 4, rb);
      var ha, hb := Field("/hr=", a.slot % 24, 2, pa), Field("/hr=", b.slot % 24, 2, pb);
      DateTextInjective("bronze/dt=", DateOf(a.slot / 24), DateOf(b.slot / 24), ha, hb);
      FieldInjective("/hr=", 2, a.slot % 24, b.slot % 24, pa, pb);
      FieldInjective("/part-", 4, a.partition, b.partition, ra, rb);
      RangeTextInjective(a.first, a.last, b.first, b.last);
      DateOfInjective(a.slot / 24, b.slot / 24);
    }
  }

  lemma QuarantineKeyTextInjective(a: Key, b: Key)
    requires a.partition >= 0 && b.partition >= 0 && Datable(a.slot) && Datable(b.slot)
    ensures QuarantineKeyText(a) == QuarantineKeyText(b) <==> a == b
  {
    if QuarantineKeyText(a) == QuarantineKeyText(b) {
      var ra, rb := RangeText(a.first, a.last), RangeText(b.first, b.last);
      var pa, pb := Field("/part-", a.partition, 4, ra), Field("/part-", b.partition, 4, rb);
      DateTextInjective("quarantine/dt=", DateOf(a.slot), DateOf(b.slot), pa, pb);
      FieldInjective("/part-", 4, a.partition, b.partition, ra, rb);
      RangeTextInjective(a.first, a.last, b.first, b.last);
      DateOfInjective(a.slot, b.slot);
    }
  }

  // ---- listing order ----

  function Pow10(w: nat): nat
    ensures Pow10(w) > 0
  {
    if w == 0 then 1 else 10 * Pow10(w - 1)
  }

  lemma {:induction false} PadLength(n: nat, w: nat)
    requires w > 0 && n < Pow10(w)
    ensures |Pad(n, w)| == w
  {
    if w > 1 {
      PadLength(n / 10, w - 1);
    }
  }

  /** Texts of one length compare before what follows them. */
  lemma {:induction false} EqualLengthOrder(a: string, b: string, x: string, y: string)
    requires |a| == |b|
    ensures StrLe(a + x, b + y) <==> if a == b then StrLe(x, y) else StrLe(a, b)
  {
    if a == [] {
      assert a + x == x && b + y == y;
    } else {
      assert a == [a[0]] + a[1..] && b == [b[0]] + b[1..];
      assert (a + x)[1..] == a[1..] + x && (b + y)[1..] == b[1..] + y;
      EqualLengthOrder(a[1..], b[1..], x, y);
    }
  }

  lemma DigitOrder(c: nat, d: nat)
    requires c < 10 && d < 10
    ensures StrLe([Digit(c)], [Digit(d)]) <==> c <= d
  {
  }

  lemma PadInjective(n: nat, m: nat, w: nat)
    requires w > 0
    ensures Pad(n, w) == Pad(m, w) <==> n == m
  {
    PadRoundTrip(n, w);
    PadRoundTrip(m, w);
  }

  lemma {:induction false} PadOrder(n: nat, m: nat, w: nat)
    requires w > 0 && n < Pow10(w) && m < Pow10(w)
    ensures StrLe(Pad(n, w), Pad(m, w)) <==> n <= m
  {
    DigitOrder(n % 10, m % 10);
    if w > 1 {
      var a, b := Pad(n / 10, w - 1), Pad(m / 10, w - 1);
      PadLength(n / 10, w - 1);
      PadLength(m / 10, w - 1);
      PadOrder(n / 10, m / 10, w - 1);
      PadInjective(n / 10, m / 10, w - 1);
      EqualLengthOrder(a, b, [Digit(n % 10)], [Digit(m % 10)]);
      assert Pad(n, w) == a + [Digit(n % 10)] && Pad(m, w) == b + [Digit(m % 10)];
    } else {
      assert Pow10(1) == 10;
      assert Pad(n, 1) == [Digit(n % 10)] && Pad(m, 1) == [Digit(m % 10)];
    }
  }

  /** A shared beginning does not decide the order. */
  lemma PrefixOrder(prefix: string, a: string, b: string, x: string, y: string)
    ensures StrLe(prefix + a + x, prefix + b + y) <==> StrLe(a + x, b + y)
  {
    EqualLengthOrder(prefix, prefix, a + x, b + y);
    Regroup(prefix, a, x);
    Regroup(prefix, b, y);
  }

  lemma FieldOrder(prefix: string, w: nat, n: nat, m: nat, x: string, y: string)
    requires w > 0 && n < Pow10(w) && m < Pow10(w)
    ensures StrLe(Field(prefix, n, w, x), Field(prefix, m, w, y)) <==> n < m || (n == m && StrLe(x, y))
  {
    PadLength(n, w);
    PadLength(m, w);
    PadOrder(n, m, w);
    PadInjective(n, m, w);
    EqualLengthOrder(Pad(n, w), Pad(m, w), x, y);
    PrefixOrder(prefix, Pad(n, w), Pad(m, w), x, y);
  }

  /** Below 10^12 a listing of one hour and partition is in offset order. */
  lemma RangeTextOrder(a: Key, b: Key)
    requires a.first < Pow10(12) && a.last < Pow10(12) && b.first < Pow10(12) && b.last < Pow10(12)
    ensures StrLe(RangeText(a.first, a.last), RangeText(b.first, b.last)) <==>
            a.first < b.first || (a.first == b.first && a.last <= b.last)
  {
    FieldOrder("-", 12, a.first, b.first, Field("-", a.last, 12, ".parquet"), Field("-", b.last, 12, ".parquet"));
    FieldOrder("-", 12, a.last, b.last, ".parquet", ".parquet");
    StrLeReflexive(".parquet");
  }

  /** A shared leading field does not decide the order. */
  lemma SharedField(prefix: string, n: nat, w: nat, x: string, y: string)
    ensures StrLe(Field(prefix, n, w, x), Field(prefix, n, w, y)) <==> StrLe(x, y)
  {
    EqualLengthOrder(prefix + Pad(n, w), prefix + Pad(n, w), x, y);
  }

  /** Below 10^12, the names of one hour and one partition are listed in offset order. */
  lemma BronzeKeyTextOrder(a: Key, b: Key)
    requires a.partition >= 0 && Datable(a.slot / 24) && a.slot == b.slot && a.partition == b.partition
    requires a.first < Pow10(12) && a.last < Pow10(12) && b.first < Pow10(12) && b.last < Pow10(12)
    ensures StrLe(BronzeKeyText(a), BronzeKeyText(b)) <==>
            a.first < b.first || (a.first == b.first && a.last <= b.last)
  {
    RangeTextOrder(a, b);
    var d := DateOf(a.slot / 24);
    var ra, rb := RangeText(a.first, a.last), RangeText(b.first, b.last);
    var pa, pb := Field("/part-", a.partition, 4, ra), Field("/part-", a.partition, 4, rb);
    var ha, hb := Field("/hr=", a.slot % 24, 2, pa), Field("/hr=", a.slot % 24, 2, pb);
    var da, db := Field("-", d.day, 2, ha), Field("-", d.day, 2, hb);
    SharedField("/part-", a.partition, 4, ra, rb);
    SharedField("/hr=", a.slot % 24, 2, pa, pb);
    SharedField("-", d.day, 2, ha, hb);
    SharedField("-", d.month, 2, da, db);
    SharedField("bronze/dt=", d.year, 4, Field("-", d.month, 2, da), Field("-", d.month, 2, db));
  }
}

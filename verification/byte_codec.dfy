/** Big-endian fields on a byte stream, written and read a byte at a time. */
module ByteCodec {
  import opened ExchangeTypes

  type Byte = b: nat | b < 256

  type Bytes = seq<Byte>

  function Pow256(w: nat): (p: nat)
    ensures p > 0
  {
    if w == 0 then 1 else 256 * Pow256(w - 1)
  }

  /** The w low-order bytes of v, most significant first. */
  function PutUint(w: nat, v: nat): (s: Bytes)
    ensures |s| == w
  {
    if w == 0 then [] else PutUint(w - 1, v / 256) + [v % 256]
  }

  function GetUint(s: Bytes): nat {
    if s == [] then 0 else 256 * GetUint(s[..|s| - 1]) + s[|s| - 1]
  }

  lemma {:induction false} GetPut(w: nat, v: nat)
    requires v < Pow256(w)
    ensures GetUint(PutUint(w, v)) == v
  {
    if w > 0 {
      GetPut(w - 1, v / 256);
      var s := PutUint(w, v);
      assert s[..w - 1] == PutUint(w - 1, v / 256);
    }
  }

  lemma {:induction false} PutGet(s: Bytes)
    ensures GetUint(s) < Pow256(|s|)
    ensures PutUint(|s|, GetUint(s)) == s
  {
    if s != [] {
      PutGet(s[..|s| - 1]);
      assert s == s[..|s| - 1] + [s[|s| - 1]];
    }
  }

  // ---------- fields ----------

  datatype Kind = U8 | U16 | U32 | U64 | I64

  function Width(k: Kind): (w: nat)
    ensures w > 0
  {
    match k
    case U8 => 1
    case U16 => 2
    case U32 => 4
    case U64 => 8
    case I64 => 8
  }

  const TWO_64: nat := 0x1_0000_0000_0000_0000
  const TWO_63: nat := 0x8000_0000_0000_0000

  predicate InKind(k: Kind, v: int) {
    match k
    case U8 => 0 <= v < 0x100
    case U16 => 0 <= v < 0x1_0000
    case U32 => 0 <= v < 0x1_0000_0000
    case U64 => 0 <= v < TWO_64
    case I64 => 0 - TWO_63 <= v < TWO_63
  }

  /** The two's complement bit pattern, as a number. */
  function BitsOf(k: Kind, v: int): nat
    requires InKind(k, v)
  {
    if v < 0 then v + TWO_64 else v
  }

  function FromBits(k: Kind, n: nat): int {
    if k.I64? && n >= TWO_63 then n - TWO_64 else n
  }

  function EncodeField(k: Kind, v: int): (s: Bytes)
    requires InKind(k, v)
    ensures |s| == Width(k)
  {
    PutUint(Width(k), BitsOf(k, v))
  }

  function DecodeField(k: Kind, s: Bytes): int
    requires |s| == Width(k)
  {
    FromBits(k, GetUint(s))
  }

  lemma Powers()
    ensures Pow256(1) == 0x100 && Pow256(2) == 0x1_0000 && Pow256(4) == 0x1_0000_0000 && Pow256(8) == TWO_64
  {
    assert Pow256(2) == 0x1_0000;
    assert Pow256(4) == 0x1_0000_0000;
    assert Pow256(6) == 0x1_0000_0000_0000;
  }

  lemma FieldRoundTrip(k: Kind, v: int)
    requires InKind(k, v)
    ensures DecodeField(k, EncodeField(k, v)) == v
  {
    Powers();
    GetPut(Width(k), BitsOf(k, v));
  }

  lemma FieldReverse(k: Kind, s: Bytes)
    requires |s| == Width(k)
    ensures InKind(k, DecodeField(k, s)) && EncodeField(k, DecodeField(k, s)) == s
  {
    Powers();
    PutGet(s);
  }

  // ---------- records ----------

  function WidthOf(kinds: seq<Kind>): nat {
    if kinds == [] then 0 else Width(kinds[0]) + WidthOf(kinds[1..])
  }

  predicate InKinds(kinds: seq<Kind>, values: seq<int>) {
    |values| == |kinds| && forall i :: 0 <= i < |kinds| ==> InKind(kinds[i], values[i])
  }

  function EncodeFields(kinds: seq<Kind>, values: seq<int>): (s: Bytes)
    requires InKinds(kinds, values)
    ensures |s| == WidthOf(kinds)
  {
    if kinds == [] then [] else EncodeField(kinds[0], values[0]) + EncodeFields(kinds[1..], values[1..])
  }

  function DecodeFields(kinds: seq<Kind>, s: Bytes): (values: seq<int>)
    requires |s| == WidthOf(kinds)
    ensures |values| == |kinds|
  {
    if kinds == [] then []
    else [DecodeField(kinds[0], s[..Width(kinds[0])])] + DecodeFields(kinds[1..], s[Width(kinds[0])..])
  }

  lemma {:induction false} RecordRoundTrip(kinds: seq<Kind>, values: seq<int>)
    requires InKinds(kinds, values)
    ensures DecodeFields(kinds, EncodeFields(kinds, values)) == values
  {
    if kinds != [] {
      var w, s := Width(kinds[0]), EncodeFields(kinds, values);
      assert s[..w] == EncodeField(kinds[0], values[0]);
      assert s[w..] == EncodeFields(kinds[1..], values[1..]);
      FieldRoundTrip(kinds[0], values[0]);
      RecordRoundTrip(kinds[1..], values[1..]);
      assert values == [values[0]] + values[1..];
    }
  }

  lemma {:induction false} RecordReverse(kinds: seq<Kind>, s: Bytes)
    requires |s| == WidthOf(kinds)
    ensures InKinds(kinds, DecodeFields(kinds, s)) && EncodeFields(kinds, DecodeFields(kinds, s)) == s
  {
    hide DecodeField, InKind, PutUint;
    if kinds != [] {
      var w := Width(kinds[0]);
      FieldReverse(kinds[0], s[..w]);
      RecordReverse(kinds[1..], s[w..]);
      var values := DecodeFields(kinds, s);
      assert values[1..] == DecodeFields(kinds[1..], s[w..]);
      assert s == s[..w] + s[w..];
    }
  }

  // ---------- the loops ----------

  /** Appends the bytes of v, highest shift first. */
  method PutBytes(buf: Bytes, w: nat, v: nat) returns (buf': Bytes)
    ensures buf' == buf + PutUint(w, v)
  {
    hide PutUint, Pow256;
    buf' := buf;
    var k := w;
    while k > 0
      invariant 0 <= k <= w && buf' + PutUint(k, v) == buf + PutUint(w, v)
    {
      TopByte(k, v);
      k := k - 1;
      buf' := buf' + [v / Pow256(k) % 256];
    }
    NoBytes(v);
  }

  lemma NoBytes(v: nat)
    ensures PutUint(0, v) == []
  {
  }

  /** The first byte written is the one the widest shift leaves. */
  lemma {:induction false} TopByte(w: nat, v: nat)
    requires w > 0
    ensures PutUint(w, v) == [v / Pow256(w - 1) % 256] + PutUint(w - 1, v)
  {
    if w == 1 {
      assert v / Pow256(0) == v;
    } else {
      TopByte(w - 1, v / 256);
      ShiftTwice(v, Pow256(w - 2));
    }
  }

  lemma ShiftTwice(v: nat, p: nat)
    requires p > 0
    ensures v / 256 / p == v / (256 * p)
  {
    var q, r := v / 256 / p, v / 256 % p;
    var x := q * p;
    assert v / 256 == x + r;
    assert q * (256 * p) == 256 * x;
    QuotientIs(v, 256 * p, q);
  }

  lemma QuotientIs(v: nat, m: nat, q: nat)
    requires m > 0 && q * m <= v < q * m + m
    ensures v / m == q
  {
    var d := v / m;
    assert v == d * m + v % m;
    assert (d - q) * m == d * m - q * m && (q - d) * m == q * m - d * m;
    assert d - q >= 1 ==> (d - q) * m >= m;
    assert q - d >= 1 ==> (q - d) * m >= m;
  }

  /** A cursor over a span: a read that would run past the end answers None and moves nothing. */
  class ByteReader {
    const data: Bytes
    var pos: nat

    constructor (data: Bytes)
      ensures this.data == data && pos == 0
    {
      this.data, pos := data, 0;
    }

    ghost predicate Valid()
      reads this
    {
      pos <= |data|
    }

    ghost function Rest(): Bytes
      requires Valid()
      reads this
    {
      data[pos..]
    }

    method Get(k: Kind) returns (v: Option<int>)
      requires Valid()
      modifies this
      ensures Valid()
      ensures var w := Width(k);
              if |old(Rest())| < w then v == None && pos == old(pos)
              else v == Some(DecodeField(k, old(Rest())[..w])) && Rest() == old(Rest())[w..]
    {
      var w := Width(k);
      if |data| - pos < w {
        return None;
      }
      var n: nat := 0;
      ghost var field := Rest()[..w];
      for i := 0 to w
        invariant n == GetUint(field[..i])
      {
        assert field[..i + 1][..i] == field[..i];
        var b: nat := data[pos + i];
        n := 256 * n + b;
      }
      assert field[..w] == field;
      pos := pos + w;
      v := Some(FromBits(k, n));
    }

    /** Reads a whole record, or None if the span ends first. */
    method GetAll(kinds: seq<Kind>) returns (values: Option<seq<int>>)
      requires Valid()
      modifies this
      ensures Valid()
      ensures |old(Rest())| < WidthOf(kinds) ==> values == None
      ensures |old(Rest())| >= WidthOf(kinds) ==>
                && values == Some(DecodeFields(kinds, old(Rest())[..WidthOf(kinds)]))
                && Rest() == old(Rest())[WidthOf(kinds)..]
    {
      hide DecodeField;
      var done: seq<int> := [];
      ghost var start := Rest();
      for i := 0 to |kinds|
        invariant Valid() && |done| == i && WidthOf(kinds[..i]) <= |start| && Rest() == start[WidthOf(kinds[..i])..]
        invariant done == DecodeFields(kinds[..i], start[..WidthOf(kinds[..i])])
      {
        ghost var w, w' := WidthOf(kinds[..i]), WidthOf(kinds[..i + 1]);
        WidthSplit(kinds, i);
        var v := Get(kinds[i]);
        if v.None? {
          return None;
        }
        DecodeSplit(kinds[..i], kinds[i], start[..w']);
        assert start[..w'][..w] == start[..w] && start[..w'][w..] == start[w..][..Width(kinds[i])];
        assert kinds[..i] + [kinds[i]] == kinds[..i + 1];
        done := done + [v.value];
      }
      assert kinds[..|kinds|] == kinds;
      values := Some(done);
    }
  }

  lemma {:induction false} WidthConcat(a: seq<Kind>, b: seq<Kind>)
    ensures WidthOf(a + b) == WidthOf(a) + WidthOf(b)
  {
    if a == [] {
      assert a + b == b;
    } else {
      assert (a + b)[1..] == a[1..] + b;
      WidthConcat(a[1..], b);
    }
  }

  lemma WidthSplit(kinds: seq<Kind>, i: nat)
    requires i < |kinds|
    ensures WidthOf(kinds[..i + 1]) == WidthOf(kinds[..i]) + Width(kinds[i]) <= WidthOf(kinds)
  {
    WidthConcat(kinds[..i], [kinds[i]]);
    assert kinds[..i + 1] == kinds[..i] + [kinds[i]];
    WidthConcat(kinds[..i + 1], kinds[i + 1..]);
    assert kinds == kinds[..i + 1] + kinds[i + 1..];
    assert WidthOf([kinds[i]]) == Width(kinds[i]);
  }

  lemma {:induction false} DecodeSplit(kinds: seq<Kind>, k: Kind, s: Bytes)
    requires |s| == WidthOf(kinds) + Width(k)
    ensures WidthOf(kinds + [k]) == |s|
    ensures DecodeFields(kinds + [k], s)
              == DecodeFields(kinds, s[..WidthOf(kinds)]) + [DecodeField(k, s[WidthOf(kinds)..])]
  {
    hide GetUint, FromBits;
    WidthConcat(kinds, [k]);
    if kinds == [] {
      assert kinds + [k] == [k] && s[..Width(k)] == s;
    } else {
      var w := Width(kinds[0]);
      assert (kinds + [k])[1..] == kinds[1..] + [k];
      DecodeSplit(kinds[1..], k, s[w..]);
      assert s[..WidthOf(kinds)][w..] == s[w..][..WidthOf(kinds[1..])];
      assert s[..WidthOf(kinds)][..w] == s[..w];
      assert s[w..][WidthOf(kinds[1..])..] == s[WidthOf(kinds)..];
    }
  }
}

/** XDR marshalling of integers and strings (RFC 1832), through an iterator over bytes.

    An iterator is an offset into an array; every operation advances it to the next item. */
module Xdr {

  type Byte = x: int | 0 <= x < 256

  // ------------------------------------------------------------------ numbers and digits

  // 256 to the power n.
  function Power(n: nat): (p: int)
    ensures p >= 1
    ensures n > 0 ==> p % 2 == 0
  {
    if n == 0 then 1 else 256 * Power(n - 1)
  }

  // The number whose base-256 digits are `bs`, most significant first.
  function Value(bs: seq<Byte>): (v: int)
    ensures 0 <= v < Power(|bs|)
  {
    if bs == [] then 0 else Value(bs[..|bs| - 1]) * 256 + bs[|bs| - 1]
  }

  // The last n base-256 digits of u.
  function Digits(u: nat, n: nat): (bs: seq<Byte>)
    ensures |bs| == n
  {
    if n == 0 then [] else Digits(u / 256, n - 1) + [u % 256]
  }

  lemma {:induction false} ValueOfDigits(u: nat, n: nat)
    requires u < Power(n)
    ensures Value(Digits(u, n)) == u
  {
    if n > 0 {
      ValueOfDigits(u / 256, n - 1);
      assert Digits(u, n)[..n - 1] == Digits(u / 256, n - 1);
    }
  }

  lemma {:induction false} DigitsOfValue(bs: seq<Byte>)
    ensures Digits(Value(bs), |bs|) == bs
  {
    if bs != [] {
      DigitsOfValue(bs[..|bs| - 1]);
    }
  }

  lemma Ordered(p: int, a: int, b: int)
    requires p >= 1
    ensures a <= b ==> p * a <= p * b
  {
    if a <= b {
      assert p * b == p * a + p * (b - a);
    }
  }

  lemma Quotient(x: int, p: int, q: int, r: int)
    requires p >= 1 && 0 <= r < p && x == p * q + r
    ensures x / p == q && x % p == r
  {
    Ordered(p, q + 1, x / p);
    Ordered(p, x / p, q - 1);
    assert x == p * (x / p) + x % p;
  }

  lemma DivideTwice(u: nat, p: int)
    requires p >= 1
    ensures u / 256 / p == u / (256 * p)
  {
    var q, r := u / (256 * p), u % (256 * p);
    assert u == 256 * p * q + r;
    var a, b := r / 256, r % 256;
    assert u == 256 * (p * q + a) + b;
    assert u / 256 == p * q + a;
    assert 0 <= a < p;
    Quotient(p * q + a, p, q, a);
  }

  // Digit k is what a right shift by 8 * (n - 1 - k) bits leaves in the lowest byte.
  lemma {:induction false} DigitAt(u: nat, n: nat, k: nat)
    requires k < n
    ensures Digits(u, n)[k] == u / Power(n - 1 - k) % 256
  {
    if k < n - 1 {
      DigitAt(u / 256, n - 1, k);
      DivideTwice(u, Power(n - 2 - k));
    }
  }

  // ------------------------------------------------------------------ integers

  // A fixed-width integer type, and its size in bytes.
  datatype Kind = Kind(signed: bool, size: nat)

  predicate Supported(k: Kind) { k.size == 2 || k.size == 4 || k.size == 8 }

  predicate InRange(k: Kind, v: int) {
    if k.signed then -Power(k.size) / 2 <= v < Power(k.size) / 2 else 0 <= v < Power(k.size)
  }

  // The conversions to and from the unsigned type of the same width.
  function ToUnsigned(k: Kind, v: int): (u: int)
    requires InRange(k, v)
    ensures 0 <= u < Power(k.size)
  {
    if v < 0 then v + Power(k.size) else v
  }

  function FromUnsigned(k: Kind, u: int): (v: int)
    requires 0 <= u < Power(k.size) && k.size > 0
    ensures InRange(k, v) && ToUnsigned(k, v) == u
  {
    if k.signed && u >= Power(k.size) / 2 then u - Power(k.size) else u
  }

  function EncodeInteger(k: Kind, v: int): seq<Byte>
    requires InRange(k, v)
  {
    Digits(ToUnsigned(k, v), k.size)
  }

  lemma TopByte(u: nat, p: int)
    requires p >= 1 && u < 256 * p
    ensures 0 <= u / p < 256 && (u / p >= 128 <==> u >= 128 * p)
  {
    var q := u / p;
    Ordered(p, 256, q);
    Ordered(p, 128, q);
    Ordered(p, q, 127);
    Ordered(p, q, -1);
    assert u == p * q + u % p;
  }

  /** The bytes are those of the two's complement: read as an unsigned number they give v modulo
      256^size, and the first one has its top bit set exactly for negative numbers. */
  lemma TwosComplement(k: Kind, v: int)
    requires Supported(k) && InRange(k, v)
    ensures var bs := EncodeInteger(k, v);
      && |bs| == k.size
      && Value(bs) == v + (if v < 0 then Power(k.size) else 0)
      && (k.signed ==> (bs[0] >= 128 <==> v < 0))
  {
    var u, n := ToUnsigned(k, v), k.size;
    ValueOfDigits(u, n);
    if k.signed {
      DigitAt(u, n, 0);
      assert Power(n) == 256 * Power(n - 1);
      TopByte(u, Power(n - 1));
    }
  }

  // ------------------------------------------------------------------ bitwise or

  function BitOr(a: nat, b: nat): nat {
    if a == 0 && b == 0 then 0
    else 2 * BitOr(a / 2, b / 2) + if a % 2 == 1 || b % 2 == 1 then 1 else 0
  }

  lemma {:induction false} OrWithZero(a: nat)
    ensures BitOr(a, 0) == a
  {
    if a > 0 { OrWithZero(a / 2); }
  }

  function Twos(n: nat): nat { if n == 0 then 1 else 2 * Twos(n - 1) }

  // Or adds numbers that have no bit in common.
  lemma {:induction false} OrAdds(a: nat, b: nat, p: nat, bits: nat)
    requires p == Twos(bits) && b < p
    ensures BitOr(a * p, b) == a * p + b
  {
    if bits == 0 {
      OrWithZero(a);
    } else {
      var half := Twos(bits - 1);
      assert a * p == 2 * (a * half);
      OrAdds(a, b / 2, half, bits - 1);
      assert (a * p) / 2 == a * half && (a * p) % 2 == 0;
    }
  }

  lemma {:induction false} TwosAdd(m: nat, n: nat)
    ensures Twos(m + n) == Twos(m) * Twos(n)
  {
    if n > 0 {
      TwosAdd(m, n - 1);
      assert Twos(m + n) == 2 * Twos(m + (n - 1));
    }
  }

  lemma {:induction false} PowerIsTwos(n: nat)
    ensures Power(n) == Twos(8 * n)
  {
    if n > 0 {
      PowerIsTwos(n - 1);
      TwosAdd(8 * (n - 1), 8);
      assert Twos(8) == 4 * Twos(6) == 16 * Twos(4) == 64 * Twos(2) == 256;
    }
  }

  lemma Shifted(upper: nat, b: Byte, p: int)
    requires p >= 1
    ensures 0 <= b * p < 256 * p
    ensures upper * (256 * p) + b * p == (upper * 256 + b) * p
  {
  }

  lemma OrByte(upper: nat, b: Byte, i: nat)
    ensures BitOr(upper * Power(i + 1), b * Power(i)) == (upper * 256 + b) * Power(i)
  {
    var p, low := Power(i), b * Power(i);
    Shifted(upper, b, p);
    PowerIsTwos(i + 1);
    OrAdds(upper, low, Power(i + 1), 8 * (i + 1));
  }

  // `u << 8 * i`.
  function ShiftLeft(u: nat, i: nat): nat { u * Power(i) }

  // One round of the reading loop: the bytes read so far are the upper digits.
  lemma OrNext(seen: seq<Byte>, b: Byte, i: nat)
    ensures BitOr(ShiftLeft(Value(seen), i + 1), ShiftLeft(b, i)) == ShiftLeft(Value(seen + [b]), i)
  {
    OrByte(Value(seen), b, i);
    assert (seen + [b])[..|seen|] == seen;
  }

  // ------------------------------------------------------------------ strings

  // The number of bytes up to the next multiple of 4.
  function PadSize(n: nat): (r: nat)
    ensures r <= 3 && (n + r) % 4 == 0
  {
    if n % 4 == 0 then 0 else 4 - n % 4
  }

  function Zeros(n: nat): seq<Byte> { seq(n, _ => 0) }

  function EncodeText(s: seq<Byte>): seq<Byte> { s + Zeros(PadSize(|s|)) }

  // ------------------------------------------------------------------ items

  datatype Item = Number(kind: Kind, v: int) | Text(s: seq<Byte>)

  // What the reader must know beforehand: the type of a number, the length of a string.
  datatype Form = NumberForm(kind: Kind) | TextForm(length: nat)

  predicate ValidForm(f: Form) { f.NumberForm? ==> Supported(f.kind) }

  predicate ValidItem(x: Item) { x.Number? ==> Supported(x.kind) && InRange(x.kind, x.v) }

  function FormOf(x: Item): Form {
    match x
    case Number(k, _) => NumberForm(k)
    case Text(s) => TextForm(|s|)
  }

  // The bytes an item of this form takes up.
  function Size(f: Form): nat {
    match f
    case NumberForm(k) => k.size
    case TextForm(n) => n + PadSize(n)
  }

  function Encode(x: Item): (bs: seq<Byte>)
    requires ValidItem(x)
    ensures |bs| == Size(FormOf(x))
  {
    match x
    case Number(k, v) => EncodeInteger(k, v)
    case Text(s) => EncodeText(s)
  }

  function Decode(f: Form, bs: seq<Byte>): (x: Item)
    requires ValidForm(f) && |bs| == Size(f)
    ensures ValidItem(x) && FormOf(x) == f
  {
    match f
    case NumberForm(k) => Number(k, FromUnsigned(k, Value(bs)))
    case TextForm(n) => Text(bs[..n])
  }

  lemma DecodeInvertsEncode(x: Item)
    requires ValidItem(x)
    ensures Decode(FormOf(x), Encode(x)) == x
  {
    if x.Number? {
      ValueOfDigits(ToUnsigned(x.kind, x.v), x.kind.size);
    }
  }

  // The fill bytes, which the reader skips, are zero.
  predicate ZeroFilled(f: Form, bs: seq<Byte>)
    requires |bs| == Size(f)
  {
    f.TextForm? ==> forall k :: f.length <= k < |bs| ==> bs[k] == 0
  }

  /** Conversely, writing what was read restores the bytes exactly when the fill is zero. */
  lemma EncodeInvertsDecode(f: Form, bs: seq<Byte>)
    requires ValidForm(f) && |bs| == Size(f)
    ensures Encode(Decode(f, bs)) == bs <==> ZeroFilled(f, bs)
  {
    if f.NumberForm? {
      DigitsOfValue(bs);
    } else {
      var again := bs[..f.length] + Zeros(PadSize(f.length));
      if ZeroFilled(f, bs) {
        assert again == bs;
      }
    }
  }

  // ------------------------------------------------------------------ items back to back

  predicate ValidItems(xs: seq<Item>) { forall i :: 0 <= i < |xs| ==> ValidItem(xs[i]) }

  predicate ValidForms(fs: seq<Form>) { forall i :: 0 <= i < |fs| ==> ValidForm(fs[i]) }

  function FormsOf(xs: seq<Item>): (fs: seq<Form>)
    ensures ValidItems(xs) ==> ValidForms(fs)
  {
    seq(|xs|, i requires 0 <= i < |xs| => FormOf(xs[i]))
  }

  function EncodeAll(xs: seq<Item>): seq<Byte>
    requires ValidItems(xs)
  {
    if xs == [] then [] else Encode(xs[0]) + EncodeAll(xs[1..])
  }

  function TotalSize(fs: seq<Form>): nat {
    if fs == [] then 0 else Size(fs[0]) + TotalSize(fs[1..])
  }

  function DecodeAll(fs: seq<Form>, bs: seq<Byte>): (xs: seq<Item>)
    requires ValidForms(fs) && TotalSize(fs) <= |bs|
  {
    if fs == [] then []
    else [Decode(fs[0], bs[..Size(fs[0])])] + DecodeAll(fs[1..], bs[Size(fs[0])..])
  }

  lemma FormsOfTail(xs: seq<Item>)
    requires xs != []
    ensures FormsOf(xs)[0] == FormOf(xs[0]) && FormsOf(xs)[1..] == FormsOf(xs[1..])
  {
  }

  lemma {:induction false} EncodedSize(xs: seq<Item>)
    requires ValidItems(xs)
    ensures |EncodeAll(xs)| == TotalSize(FormsOf(xs))
  {
    if xs != [] {
      FormsOfTail(xs);
      EncodedSize(xs[1..]);
    }
  }

  lemma DecodeFirst(fs: seq<Form>, x: Item, bs: seq<Byte>)
    requires fs != [] && ValidForms(fs) && ValidItem(x) && fs[0] == FormOf(x) && TotalSize(fs[1..]) <= |bs|
    ensures TotalSize(fs) <= |Encode(x) + bs|
    ensures DecodeAll(fs, Encode(x) + bs) == [x] + DecodeAll(fs[1..], bs)
  {
    DecodeInvertsEncode(x);
    assert (Encode(x) + bs)[..Size(fs[0])] == Encode(x);
    assert (Encode(x) + bs)[Size(fs[0])..] == bs;
  }

  lemma EncodeFirst(xs: seq<Item>, rest: seq<Byte>)
    requires ValidItems(xs) && xs != []
    ensures EncodeAll(xs) + rest == Encode(xs[0]) + (EncodeAll(xs[1..]) + rest)
  {
  }

  /** Whatever follows in the buffer, a sequence of items of any types is read back item by item. */
  lemma {:induction false} RoundTrip(xs: seq<Item>, rest: seq<Byte>)
    requires ValidItems(xs)
    ensures TotalSize(FormsOf(xs)) == |EncodeAll(xs)|
    ensures DecodeAll(FormsOf(xs), EncodeAll(xs) + rest) == xs
  {
    EncodedSize(xs);
    if xs != [] {
      var more := EncodeAll(xs[1..]) + rest;
      FormsOfTail(xs);
      RoundTrip(xs[1..], rest);
      DecodeFirst(FormsOf(xs), xs[0], more);
      EncodeFirst(xs, rest);
    }
  }

  // ------------------------------------------------------------------ through an iterator

  method WriteInteger(out: array<Byte>, it: nat, k: Kind, v: int) returns (next: nat)
    requires Supported(k) && InRange(k, v) && it + k.size <= out.Length
    modifies out
    ensures next == it + k.size
    ensures out[..] == old(out[..it]) + EncodeInteger(k, v) + old(out[next..])
  {
    var us: nat := ToUnsigned(k, v);
    next := it;
    var i := k.size - 1;
    while i >= 0
      invariant -1 <= i < k.size && next == it + (k.size - 1 - i)
      invariant forall j :: 0 <= j < out.Length ==>
        out[j] == if it <= j < next then Digits(us, k.size)[j - it] else old(out[j])
    {
      DigitAt(us, k.size, k.size - 1 - i);
      out[next] := us / Power(i) % 256;
      next := next + 1;
      i := i - 1;
    }
  }

  // One round of the loop below: `b` goes to digit `i`.
  method OrByteIn(us: nat, b: Byte, i: nat, ghost seen: seq<Byte>) returns (r: nat)
    requires us == ShiftLeft(Value(seen), i + 1)
    ensures r == ShiftLeft(Value(seen + [b]), i)
  {
    OrNext(seen, b, i);
    r := BitOr(us, ShiftLeft(b, i));
  }

  method ReadInteger(bytes: array<Byte>, it: nat, k: Kind) returns (v: int, next: nat)
    requires Supported(k) && it + k.size <= bytes.Length
    ensures next == it + k.size
    ensures v == FromUnsigned(k, Value(bytes[it..next]))
  {
    var us: nat := 0;
    next := it;
    ghost var seen: seq<Byte> := [];
    var i := k.size - 1;
    while i >= 0
      invariant -1 <= i < k.size && next == it + (k.size - 1 - i)
      invariant seen == bytes[it..next]
      invariant us == ShiftLeft(Value(seen), i + 1)
    {
      us := OrByteIn(us, bytes[next], i, seen);
      assert bytes[it..next] + [bytes[next]] == bytes[it..next + 1];
      seen := seen + [bytes[next]];
      next := next + 1;
      i := i - 1;
    }
    v := FromUnsigned(k, us);
  }

  method Pad(out: array<Byte>, it: nat, padsize: nat) returns (next: nat)
    requires it + padsize <= out.Length
    modifies out
    ensures next == it + padsize
    ensures out[..] == old(out[..it]) + Zeros(padsize) + old(out[next..])
  {
    next := it;
    for i := 0 to padsize
      invariant next == it + i
      invariant forall j :: 0 <= j < out.Length ==> out[j] == if it <= j < next then 0 else old(out[j])
    {
      out[next] := 0;
      next := next + 1;
    }
  }

  method WriteString(out: array<Byte>, it: nat, s: seq<Byte>) returns (next: nat)
    requires it + |s| + PadSize(|s|) <= out.Length
    modifies out
    ensures next == it + |s| + PadSize(|s|)
    ensures out[..] == old(out[..it]) + EncodeText(s) + old(out[next..])
  {
    next := it;
    for i := 0 to |s|
      invariant next == it + i
      invariant forall j :: 0 <= j < out.Length ==> out[j] == if it <= j < next then s[j - it] else old(out[j])
    {
      out[next] := s[i];
      next := next + 1;
    }
    ghost var written := out[..next];
    assert written == old(out[..it]) + s;
    next := Pad(out, next, PadSize(|s|));
  }

  method ReadString(bytes: array<Byte>, it: nat, size: nat) returns (s: seq<Byte>, next: nat)
    requires it + size + PadSize(size) <= bytes.Length
    ensures next == it + size + PadSize(size)
    ensures s == bytes[it..it + size]
  {
    s, next := [], it;
    for i := 0 to size
      invariant next == it + i && s == bytes[it..next]
    {
      s := s + [bytes[next]];
      next := next + 1;
    }
    for i := 0 to PadSize(size)
      invariant next == it + size + i
    {
      next := next + 1;
    }
  }

  method WriteItem(out: array<Byte>, it: nat, x: Item) returns (next: nat)
    requires ValidItem(x) && it + Size(FormOf(x)) <= out.Length
    modifies out
    ensures next == it + Size(FormOf(x))
    ensures out[..] == old(out[..it]) + Encode(x) + old(out[next..])
  {
    match x
    case Number(k, v) => next := WriteInteger(out, it, k, v);
    case Text(s) => next := WriteString(out, it, s);
  }

  method ReadItem(bytes: array<Byte>, it: nat, f: Form) returns (x: Item, next: nat)
    requires ValidForm(f) && it + Size(f) <= bytes.Length
    ensures next == it + Size(f)
    ensures x == Decode(f, bytes[it..next])
  {
    match f
    case NumberForm(k) =>
      var v;
      v, next := ReadInteger(bytes, it, k);
      x := Number(k, v);
    case TextForm(n) =>
      var s;
      s, next := ReadString(bytes, it, n);
      x := Text(s);
      assert bytes[it..next][..n] == bytes[it..it + n];
  }

  // Writing `more` right behind `one` is writing both together.
  lemma Adjacent(a: seq<Byte>, b: seq<Byte>, c: seq<Byte>, i: nat, j: nat, k: nat, one: seq<Byte>, more: seq<Byte>)
    requires i <= j <= k <= |a| && j == i + |one| && k == j + |more|
    requires b == a[..i] + one + a[j..] && c == b[..j] + more + b[k..]
    ensures c == a[..i] + (one + more) + a[k..]
  {
    assert b[..j] == a[..i] + one;
    assert b[k..] == a[k..];
  }

  /** A program that writes items one after the other, and one that reads them. */
  method WriteAll(out: array<Byte>, it: nat, xs: seq<Item>) returns (next: nat)
    requires ValidItems(xs) && it + |EncodeAll(xs)| <= out.Length
    modifies out
    ensures next == it + |EncodeAll(xs)|
    ensures out[..] == old(out[..it]) + EncodeAll(xs) + old(out[next..])
    decreases |xs|
  {
    next := it;
    if xs != [] {
      next := WriteItem(out, it, xs[0]);
      ghost var middle, after := next, out[..];
      next := WriteAll(out, next, xs[1..]);
      Adjacent(old(out[..]), after, out[..], it, middle, next, Encode(xs[0]), EncodeAll(xs[1..]));
    }
  }

  method ReadAll(bytes: array<Byte>, it: nat, fs: seq<Form>) returns (xs: seq<Item>, next: nat)
    requires ValidForms(fs) && it + TotalSize(fs) <= bytes.Length
    ensures next == it + TotalSize(fs)
    ensures xs == DecodeAll(fs, bytes[it..])
    decreases |fs|
  {
    xs, next := [], it;
    if fs != [] {
      var x, more;
      x, next := ReadItem(bytes, it, fs[0]);
      assert bytes[it..next] == bytes[it..][..Size(fs[0])];
      assert bytes[next..] == bytes[it..][Size(fs[0])..];
      more, next := ReadAll(bytes, next, fs[1..]);
      xs := [x] + more;
    }
  }

  /** Reading back what was just written: the same items, and both iterators at the same offset. */
  method WriteThenRead(buffer: array<Byte>, it: nat, xs: seq<Item>) returns (ys: seq<Item>, written: nat, read: nat)
    requires ValidItems(xs) && it + |EncodeAll(xs)| <= buffer.Length
    modifies buffer
    ensures ys == xs && written == read == it + |EncodeAll(xs)|
  {
    written := WriteAll(buffer, it, xs);
    assert buffer[it..] == EncodeAll(xs) + old(buffer[written..]);
    RoundTrip(xs, old(buffer[written..]));
    ys, read := ReadAll(buffer, it, FormsOf(xs));
  }
}

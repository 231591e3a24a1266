/**
 The wire form of an image: little-endian numbers, length-prefixed byte strings, counted lists,
 and one schema nested inside itself.
*/
module Codec {
  import opened Wrappers

  datatype Schema = Byte | U32 | I64 | Blob | Both(fst: Schema, snd: Schema) | Many(item: Schema) | Nested

  datatype Value = Num(n: int) | Text(s: string) | Pair(fst: Value, snd: Value) | List(items: seq<Value>)

  predicate IsBytes(s: string) { forall i :: 0 <= i < |s| ==> s[i] < 256 as char }

  const TWO32 := 0x1_0000_0000
  const TWO63 := 0x8000_0000_0000_0000

  // ---- Numbers ----------------------------------------------------------------------------------

  function LittleEndian(n: nat, k: nat): (r: string)
    ensures |r| == k && IsBytes(r)
  {
    if k == 0 then "" else [(n % 256) as char] + LittleEndian(n / 256, k - 1)
  }

  function FromLittleEndian(s: string): nat
    requires IsBytes(s)
  {
    if s == "" then 0 else s[0] as nat + 256 * FromLittleEndian(s[1..])
  }

  function Power256(k: nat): nat { if k == 0 then 1 else 256 * Power256(k - 1) }

  lemma Powers()
    ensures Power256(1) == 256 && Power256(4) == TWO32 && Power256(8) == 2 * TWO63
  {
  }

  /** Byte `i` of a number is its digit `i` in base 256, the lowest first. */
  lemma {:induction false} ByteAt(n: nat, k: nat, i: nat)
    requires i < k
    ensures Power256(i) > 0 && LittleEndian(n, k)[i] as int == n / Power256(i) % 256
    decreases k
  {
    PowerPositive(i);
    if i > 0 {
      PowerPositive(i - 1);
      ByteAt(n / 256, k - 1, i - 1);
      DivideTwice(n, 256, Power256(i - 1));
    }
  }

  lemma {:induction false} PowerPositive(k: nat)
    ensures Power256(k) > 0
  {
    if k > 0 { PowerPositive(k - 1); }
  }

  lemma DivideTwice(n: nat, a: nat, b: nat)
    requires a > 0 && b > 0
    ensures a * b > 0 && n / a / b == n / (a * b)
  {
    var q, r := n / a, n % a;
    var q', r' := q / b, q % b;
    assert n == a * q + r && q == b * q' + r';
    assert n == a * (b * q' + r') + r == (a * b) * q' + (a * r' + r) by { Distribute(a, b, q', r'); }
    assert 0 <= a * r' + r < a * b by { DigitsBelow(a, b, r', r); }
    Quotient(n, a * b, q', a * r' + r);
  }

  lemma Distribute(a: nat, b: nat, q: nat, r: nat)
    ensures a * (b * q + r) == (a * b) * q + a * r
  {
  }

  lemma DigitsBelow(a: nat, b: nat, r': nat, r: nat)
    requires r' < b && r < a
    ensures a * r' + r < a * b
  {
    assert a * (r' + 1) <= a * b;
  }

  lemma Quotient(n: nat, d: nat, q: nat, r: nat)
    requires d > 0 && n == d * q + r && r < d
    ensures n / d == q
  {
    var m := n / d;
    assert n == d * m + n % d;
    assert (m - q) * d == r - n % d;
    NoMultiple(m - q, d);
  }

  lemma NoMultiple(x: int, d: int)
    requires d > 0
    ensures x >= 1 ==> x * d >= d
    ensures x <= -1 ==> x * d <= -d
  {
  }

  /** Four bytes, the lowest first. */
  lemma FourBytes(s: string)
    requires IsBytes(s) && |s| == 4
    ensures FromLittleEndian(s) == s[0] as int + 0x100 * s[1] as int + 0x1_0000 * s[2] as int + 0x100_0000 * s[3] as int
  {
    hide FromLittleEndian;
    var t, u, v := s[1..], s[2..], s[3..];
    assert s[1..][1..] == u && s[2..][1..] == v && s[3..][1..] == "";
    FirstByte(s);
    FirstByte(t);
    FirstByte(u);
    FirstByte(v);
    NoBytes();
  }

  lemma FirstByte(s: string)
    requires IsBytes(s) && s != ""
    ensures IsBytes(s[1..]) && FromLittleEndian(s) == s[0] as int + 256 * FromLittleEndian(s[1..])
  {
  }

  lemma NoBytes()
    ensures FromLittleEndian("") == 0
  {
  }

  /** Reading any number of bytes undoes writing it, and a number reads back from its digits. */
  lemma {:induction false} DigitsBack(s: string)
    requires IsBytes(s)
    ensures FromLittleEndian(s) < Power256(|s|) && LittleEndian(FromLittleEndian(s), |s|) == s
  {
    hide FromLittleEndian, LittleEndian, Power256;
    if s == "" {
      NoBytes();
      NoDigits();
    } else {
      DigitsBack(s[1..]);
      FirstByte(s);
      OneDigit(s[0], FromLittleEndian(s[1..]), |s|);
      assert s == [s[0]] + s[1..];
    }
  }

  lemma NoDigits()
    ensures LittleEndian(0, 0) == "" && Power256(0) == 1
  {
  }

  lemma OneDigit(c: char, n: nat, k: nat)
    requires c < 256 as char && k > 0 && n < Power256(k - 1)
    ensures var m := c as int + 256 * n; m < Power256(k) && LittleEndian(m, k) == [c] + LittleEndian(n, k - 1)
  {
    var m := c as int + 256 * n;
    assert m % 256 == c as int && m / 256 == n;
    assert 256 * (n + 1) <= 256 * Power256(k - 1);
  }

  /** Two's complement. */
  function Unsigned64(n: int): int { if n >= 0 then n else n + 2 * TWO63 }

  function Signed64(n: int): int { if n < TWO63 then n else n - 2 * TWO63 }

  // ---- Values that fit a schema -----------------------------------------------------------------

  ghost predicate Fits(root: Schema, s: Schema, v: Value)
    decreases v
  {
    match (s, v)
    case (Byte, Num(n)) => 0 <= n < 256
    case (U32, Num(n)) => 0 <= n < TWO32
    case (I64, Num(n)) => -TWO63 <= n < TWO63
    case (Blob, Text(t)) => IsBytes(t) && |t| < TWO32
    case (Both(a, b), Pair(x, y)) => Fits(root, a, x) && Fits(root, b, y)
    case (Many(a), List(items)) => |items| < TWO32 && forall i :: 0 <= i < |items| ==> Fits(root, a, items[i])
    case (Nested, List(items)) => |items| < TWO32 && forall i :: 0 <= i < |items| ==> FitsNamed(root, items[i])
    case _ => false
  }

  /** A name and a value of the root schema. */
  ghost predicate FitsNamed(root: Schema, v: Value)
    decreases v
  {
    v.Pair? && v.fst.Text? && IsBytes(v.fst.s) && |v.fst.s| < TWO32 && Fits(root, root, v.snd)
  }

  function EncodeText(t: string): string { LittleEndian(|t|, 4) + t }

  function Encode(root: Schema, s: Schema, v: Value): string
    decreases v
  {
    match (s, v)
    case (Byte, Num(n)) => LittleEndian(if n < 0 then 0 else n, 1)
    case (U32, Num(n)) => LittleEndian(if n < 0 then 0 else n, 4)
    case (I64, Num(n)) => LittleEndian(if Unsigned64(n) < 0 then 0 else Unsigned64(n), 8)
    case (Blob, Text(t)) => EncodeText(t)
    case (Both(a, b), Pair(x, y)) => Encode(root, a, x) + Encode(root, b, y)
    case (Many(a), List(items)) => LittleEndian(|items|, 4) + EncodeItems(root, a, items)
    case (Nested, List(items)) => LittleEndian(|items|, 4) + EncodeNamed(root, items)
    case _ => ""
  }

  function EncodeItems(root: Schema, s: Schema, items: seq<Value>): string
    decreases items
  {
    if items == [] then "" else EncodeItems(root, s, items[..|items| - 1]) + Encode(root, s, items[|items| - 1])
  }

  function EncodeNamed(root: Schema, items: seq<Value>): string
    decreases items
  {
    if items == [] then "" else EncodeNamed(root, items[..|items| - 1]) + EncodeEntry(root, items[|items| - 1])
  }

  function EncodeEntry(root: Schema, v: Value): string
    decreases v
  {
    if v.Pair? && v.fst.Text? then EncodeText(v.fst.s) + Encode(root, root, v.snd) else ""
  }

  // ---- Reading back -----------------------------------------------------------------------------------

  type Parsed<T> = Option<(T, string)>

  function TakeBytes(b: string, n: nat): Parsed<string> { if n > |b| then None else Some((b[..n], b[n..])) }

  function ParseNumber(b: string, k: nat): (r: Parsed<nat>)
    requires IsBytes(b)
    ensures r.Some? ==> IsBytes(r.value.1) && |r.value.1| + k == |b|
  {
    match TakeBytes(b, k) case None => None case Some((x, rest)) => Some((FromLittleEndian(x), rest))
  }

  function ParseText(b: string): (r: Parsed<string>)
    requires IsBytes(b)
    ensures r.Some? ==> IsBytes(r.value.1) && |r.value.1| + 4 <= |b|
  {
    match ParseNumber(b, 4) case None => None case Some((n, rest)) => TakeBytes(rest, n)
  }

  function Parse(root: Schema, s: Schema, b: string): (r: Parsed<Value>)
    requires IsBytes(b)
    ensures r.Some? ==> IsBytes(r.value.1) && |r.value.1| <= |b|
    decreases |b|, 0, s, 0
  {
    match s
    case Byte => (match ParseNumber(b, 1) case None => None case Some((n, rest)) => Some((Num(n), rest)))
    case U32 => (match ParseNumber(b, 4) case None => None case Some((n, rest)) => Some((Num(n), rest)))
    case I64 => (match ParseNumber(b, 8) case None => None case Some((n, rest)) => Some((Num(Signed64(n)), rest)))
    case Blob => (match ParseText(b) case None => None case Some((t, rest)) => Some((Text(t), rest)))
    case Both(x, y) =>
      (match Parse(root, x, b)
       case None => None
       case Some((v, rest)) => match Parse(root, y, rest) case None => None case Some((w, rest')) => Some((Pair(v, w), rest')))
    case Many(x) =>
      (match ParseNumber(b, 4)
       case None => None
       case Some((n, rest)) => match ParseItems(root, x, n, rest) case None => None case Some((items, rest')) => Some((List(items), rest')))
    case Nested =>
      (match ParseNumber(b, 4)
       case None => None
       case Some((n, rest)) => match ParseNamed(root, n, rest) case None => None case Some((items, rest')) => Some((List(items), rest')))
  }

  function ParseItems(root: Schema, s: Schema, n: nat, b: string): (r: Parsed<seq<Value>>)
    requires IsBytes(b)
    ensures r.Some? ==> IsBytes(r.value.1) && |r.value.1| <= |b| && |r.value.0| == n
    decreases |b|, 1, s, n
  {
    if n == 0 then Some(([], b))
    else match Parse(root, s, b)
      case None => None
      case Some((v, rest)) => match ParseItems(root, s, n - 1, rest) case None => None case Some((vs, rest')) => Some(([v] + vs, rest'))
  }

  function ParseNamed(root: Schema, n: nat, b: string): (r: Parsed<seq<Value>>)
    requires IsBytes(b)
    ensures r.Some? ==> IsBytes(r.value.1) && |r.value.1| <= |b| && |r.value.0| == n
    decreases |b|, 1, root, n
  {
    if n == 0 then Some(([], b))
    else match ParseText(b)
      case None => None
      case Some((name, rest)) =>
        match Parse(root, root, rest)
        case None => None
        case Some((v, rest')) =>
          match ParseNamed(root, n - 1, rest')
          case None => None
          case Some((vs, last)) => Some(([Pair(Text(name), v)] + vs, last))
  }

  // ---- Round trip --------------------------------------------------------------------------------------

  lemma NumberAgain(n: nat, k: nat, rest: string)
    requires n < Power256(k) && IsBytes(rest)
    ensures IsBytes(LittleEndian(n, k) + rest) && ParseNumber(LittleEndian(n, k) + rest, k) == Some((n, rest))
  {
  }

  lemma TextAgain(t: string, rest: string)
    requires IsBytes(t) && |t| < TWO32 && IsBytes(rest)
    ensures IsBytes(EncodeText(t) + rest) && ParseText(EncodeText(t) + rest) == Some((t, rest))
  {
    Powers();
    NumberAgain(|t|, 4, t + rest);
    assert EncodeText(t) + rest == LittleEndian(|t|, 4) + (t + rest);
    assert (t + rest)[..|t|] == t && (t + rest)[|t|..] == rest;
  }

  lemma ScalarAgain(root: Schema, s: Schema, v: Value, rest: string)
    requires Fits(root, s, v) && IsBytes(rest) && (s.Byte? || s.U32? || s.I64? || s.Blob?)
    ensures IsBytes(Encode(root, s, v) + rest) && Parse(root, s, Encode(root, s, v) + rest) == Some((v, rest))
  {
    hide LittleEndian, ParseNumber, ParseText, EncodeText, Power256, IsBytes;
    Powers();
    match (s, v)
    case (Byte, Num(n)) => NumberAgain(n, 1, rest);
    case (U32, Num(n)) => NumberAgain(n, 4, rest);
    case (I64, Num(n)) => NumberAgain(Unsigned64(n), 8, rest);
    case (Blob, Text(t)) => TextAgain(t, rest);
  }

  lemma PairParsed(root: Schema, a: Schema, b: Schema, x: Value, y: Value, text: string, mid: string, rest: string)
    requires IsBytes(text) && IsBytes(mid) && Parse(root, a, text) == Some((x, mid)) && Parse(root, b, mid) == Some((y, rest))
    ensures Parse(root, Both(a, b), text) == Some((Pair(x, y), rest))
  {
  }

  lemma EncodePair(root: Schema, a: Schema, b: Schema, x: Value, y: Value, rest: string)
    requires Fits(root, a, x) && Fits(root, b, y)
    ensures Encode(root, Both(a, b), Pair(x, y)) + rest == Encode(root, a, x) + (Encode(root, b, y) + rest)
  {
  }

  /** Reading what was written gives the value back and stops right behind it. */
  lemma {:induction false} RoundTrip(root: Schema, s: Schema, v: Value, rest: string)
    requires Fits(root, s, v) && IsBytes(rest)
    ensures IsBytes(Encode(root, s, v) + rest) && Parse(root, s, Encode(root, s, v) + rest) == Some((v, rest))
    decreases v
  {
    hide IsBytes, Encode, Parse, EncodeItems, EncodeNamed, ParseItems, ParseNamed;
    match (s, v)
    case (Both(a, b), Pair(x, y)) =>
      RoundTrip(root, b, y, rest);
      RoundTrip(root, a, x, Encode(root, b, y) + rest);
      EncodePair(root, a, b, x, y, rest);
      PairParsed(root, a, b, x, y, Encode(root, s, v) + rest, Encode(root, b, y) + rest, rest);
    case (Many(a), List(items)) =>
      NothingMore(root, a, rest);
      ItemsAgain(root, a, items, 0, rest, [], rest);
      ListAgain(root, s, v, EncodeItems(root, a, items), items, rest);
    case (Nested, List(items)) =>
      NothingMore(root, s, rest);
      NamedAgain(root, items, 0, rest, [], rest);
      ListAgain(root, s, v, EncodeNamed(root, items), items, rest);
    case _ => ScalarAgain(root, s, v, rest);
  }

  lemma NothingMore(root: Schema, s: Schema, rest: string)
    requires IsBytes(rest)
    ensures ParseItems(root, s, 0, rest) == Some(([], rest)) && ParseNamed(root, 0, rest) == Some(([], rest))
  {
  }

  lemma ListAgain(root: Schema, s: Schema, v: Value, code: string, items: seq<Value>, rest: string)
    requires v == List(items) && |items| < TWO32 && IsBytes(code + rest)
    requires s.Nested? || s.Many?
    requires code == if s.Nested? then EncodeNamed(root, items) else EncodeItems(root, s.item, items)
    requires (if s.Nested? then ParseNamed(root, |items|, code + rest) else ParseItems(root, s.item, |items|, code + rest)) == Some((items + [], rest))
    ensures IsBytes(Encode(root, s, v) + rest) && Parse(root, s, Encode(root, s, v) + rest) == Some((v, rest))
  {
    hide LittleEndian, ParseNumber, Power256, IsBytes, EncodeItems, EncodeNamed, ParseItems, ParseNamed;
    Powers();
    assert items + [] == items;
    NumberAgain(|items|, 4, code + rest);
    assert Encode(root, s, v) + rest == LittleEndian(|items|, 4) + (code + rest);
  }

  /** Items put before text that already parses as `m` items. */
  lemma {:induction false} ItemsAgain(root: Schema, s: Schema, items: seq<Value>, m: nat, b: string, more: seq<Value>, rest: string)
    requires forall i :: 0 <= i < |items| ==> Fits(root, s, items[i])
    requires IsBytes(b) && ParseItems(root, s, m, b) == Some((more, rest))
    ensures IsBytes(EncodeItems(root, s, items) + b)
    ensures ParseItems(root, s, |items| + m, EncodeItems(root, s, items) + b) == Some((items + more, rest))
    decreases items
  {
    hide IsBytes, Encode, Parse;
    if items == [] {
      assert "" + b == b && items + more == more;
    } else {
      var front, v := items[..|items| - 1], items[|items| - 1];
      RoundTrip(root, s, v, b);
      var c := Encode(root, s, v) + b;
      ItemsAgain(root, s, front, m + 1, c, [v] + more, rest);
      assert EncodeItems(root, s, items) + b == EncodeItems(root, s, front) + c;
      assert front + ([v] + more) == items + more;
    }
  }

  lemma {:induction false} NamedAgain(root: Schema, items: seq<Value>, m: nat, b: string, more: seq<Value>, rest: string)
    requires forall i :: 0 <= i < |items| ==> FitsNamed(root, items[i])
    requires IsBytes(b) && ParseNamed(root, m, b) == Some((more, rest))
    ensures IsBytes(EncodeNamed(root, items) + b)
    ensures ParseNamed(root, |items| + m, EncodeNamed(root, items) + b) == Some((items + more, rest))
    decreases items
  {
    hide IsBytes, EncodeEntry, ParseNamed, FitsNamed;
    if items == [] {
      assert "" + b == b && items + more == more;
    } else {
      var front, v := items[..|items| - 1], items[|items| - 1];
      EntryAgain(root, v, m, b, more, rest);
      var d := EncodeEntry(root, v) + b;
      NamedAgain(root, front, m + 1, d, [v] + more, rest);
      assert EncodeNamed(root, items) + b == EncodeNamed(root, front) + d;
      assert front + ([v] + more) == items + more;
    }
  }

  lemma {:induction false} EntryAgain(root: Schema, v: Value, m: nat, b: string, more: seq<Value>, rest: string)
    requires FitsNamed(root, v) && IsBytes(b) && ParseNamed(root, m, b) == Some((more, rest))
    ensures IsBytes(EncodeEntry(root, v) + b)
    ensures ParseNamed(root, m + 1, EncodeEntry(root, v) + b) == Some(([v] + more, rest))
    decreases v
  {
    hide IsBytes, Encode, Parse, EncodeText, ParseText;
    RoundTrip(root, root, v.snd, b);
    var c := Encode(root, root, v.snd) + b;
    TextAgain(v.fst.s, c);
    assert EncodeEntry(root, v) + b == EncodeText(v.fst.s) + c;
  }

  // ---- No shorter image parses ------------------------------------------------------------------------

  lemma BytesPlus(a: string, b: string)
    ensures IsBytes(a) && IsBytes(b) ==> IsBytes(a + b)
  {
  }

  lemma NumberStays(b: string, k: nat, y: string)
    requires IsBytes(b) && IsBytes(y) && ParseNumber(b, k).Some?
    ensures IsBytes(b + y) && ParseNumber(b + y, k) == Some((ParseNumber(b, k).value.0, ParseNumber(b, k).value.1 + y))
  {
    assert (b + y)[..k] == b[..k] && (b + y)[k..] == b[k..] + y;
  }

  lemma TextStays(b: string, y: string)
    requires IsBytes(b) && IsBytes(y) && ParseText(b).Some?
    ensures IsBytes(b + y) && ParseText(b + y) == Some((ParseText(b).value.0, ParseText(b).value.1 + y))
  {
    NumberStays(b, 4, y);
    var (n, rest) := ParseNumber(b, 4).value;
    assert (rest + y)[..n] == rest[..n] && (rest + y)[n..] == rest[n..] + y;
  }

  /** What has been parsed does not depend on what follows. */
  lemma {:induction false} ParseStays(root: Schema, s: Schema, b: string, y: string)
    requires IsBytes(b) && IsBytes(y) && Parse(root, s, b).Some?
    ensures IsBytes(b + y) && Parse(root, s, b + y) == Some((Parse(root, s, b).value.0, Parse(root, s, b).value.1 + y))
    decreases |b|, 0, s, 0
  {
    hide IsBytes, ParseNumber, ParseText;
    match s
    case Byte => NumberStays(b, 1, y);
    case U32 => NumberStays(b, 4, y);
    case I64 => NumberStays(b, 8, y);
    case Blob => TextStays(b, y);
    case Both(x, z) =>
      ParseStays(root, x, b, y);
      ParseStays(root, z, Parse(root, x, b).value.1, y);
    case Many(x) =>
      NumberStays(b, 4, y);
      ItemsStay(root, x, ParseNumber(b, 4).value.0, ParseNumber(b, 4).value.1, y);
    case Nested =>
      NumberStays(b, 4, y);
      NamedStay(root, ParseNumber(b, 4).value.0, ParseNumber(b, 4).value.1, y);
  }

  lemma {:induction false} ItemsStay(root: Schema, s: Schema, n: nat, b: string, y: string)
    requires IsBytes(b) && IsBytes(y) && ParseItems(root, s, n, b).Some?
    ensures IsBytes(b + y) && ParseItems(root, s, n, b + y) == Some((ParseItems(root, s, n, b).value.0, ParseItems(root, s, n, b).value.1 + y))
    decreases |b|, 1, s, n
  {
    BytesPlus(b, y);
    hide IsBytes, Parse;
    if n > 0 {
      ParseStays(root, s, b, y);
      ItemsStay(root, s, n - 1, Parse(root, s, b).value.1, y);
    }
  }

  lemma {:induction false} NamedStay(root: Schema, n: nat, b: string, y: string)
    requires IsBytes(b) && IsBytes(y) && ParseNamed(root, n, b).Some?
    ensures IsBytes(b + y) && ParseNamed(root, n, b + y) == Some((ParseNamed(root, n, b).value.0, ParseNamed(root, n, b).value.1 + y))
    decreases |b|, 1, root, n
  {
    BytesPlus(b, y);
    hide IsBytes, ParseText, Parse;
    if n > 0 {
      TextStays(b, y);
      var rest := ParseText(b).value.1;
      ParseStays(root, root, rest, y);
      NamedStay(root, n - 1, Parse(root, root, rest).value.1, y);
    }
  }

  /** No strict prefix of a complete text is complete. */
  lemma NoShorter(root: Schema, s: Schema, b: string, k: nat)
    requires IsBytes(b) && k < |b| && IsBytes(b[..k]) && Parse(root, s, b).Some? && Parse(root, s, b).value.1 == ""
    ensures Parse(root, s, b[..k]).None?
  {
    if Parse(root, s, b[..k]).Some? {
      assert b == b[..k] + b[k..];
      ParseStays(root, s, b[..k], b[k..]);
    }
  }

  // ---- Building lists one item at a time -----------------------------------------------------------------

  lemma OneItem(root: Schema, s: Schema, items: seq<Value>, v: Value)
    ensures EncodeItems(root, s, items + [v]) == EncodeItems(root, s, items) + Encode(root, s, v)
  {
  }

  lemma OneNamed(root: Schema, items: seq<Value>, name: string, v: Value)
    ensures EncodeNamed(root, items + [Pair(Text(name), v)]) == EncodeNamed(root, items) + EncodeText(name) + Encode(root, root, v)
  {
  }
}

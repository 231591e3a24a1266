/** Index version 4: variable-length numbers, prefix-compressed names, and the decoder that undoes them. */
module IndexV4 {
  import opened Wrappers

  type byte = x: int | 0 <= x < 256

  type Bytes = seq<byte>

  const NUL: byte := 0
  const NAME_MASK := 0xFFF
  const MODE := 0x81A4  // octal 100644
  const HASH_SIZE := 20
  const HEADER := 62

  // ---- Variable-length numbers ----------------------------------------------------------------

  /** All bytes but the last carry a continuation bit; each further group is worth one more. */
  function Groups(n: nat, mark: byte): Bytes
    requires mark == 0 || mark == 128
  {
    if n < 128 then [n + mark] else Groups(n / 128 - 1, 128) + [n % 128 + mark]
  }

  function Vlq(n: nat): Bytes { Groups(n, 0) }

  function Reversed<T>(s: seq<T>): seq<T> { if s == [] then [] else Reversed(s[1..]) + [s[0]] }

  lemma {:induction false} ReversedPush<T>(s: seq<T>, x: T)
    ensures Reversed(s + [x]) == [x] + Reversed(s)
  {
    if s == [] {
      assert [] + [x] == [x] && [x][1..] == [];
    } else {
      ReversedPush(s[1..], x);
      assert (s + [x])[1..] == s[1..] + [x];
    }
  }

  method EncodeVlq(n: nat) returns (r: Bytes)
    ensures r == Vlq(n)
  {
    var stack: Bytes := [n % 128];
    var val := n / 128;
    ReversedPush([], n % 128);
    assert [] + [n % 128] == [n % 128] && [n % 128] + Reversed([]) == [n % 128];
    assert Vlq(n) == (if val == 0 then [] else Groups(val - 1, 128)) + [n % 128];
    while val != 0
      invariant val >= 0 && Vlq(n) == (if val == 0 then [] else Groups(val - 1, 128)) + Reversed(stack)
      decreases val
    {
      ghost var was := val - 1;
      val := val - 1;
      var group: byte := 128 + val % 128;
      ReversedPush(stack, group);
      GroupStep(was, Reversed(stack));
      stack := stack + [group];
      val := val / 128;
    }
    r := Reversed(stack);
  }

  lemma GroupStep(n: nat, rest: Bytes)
    ensures Groups(n, 128) + rest == (if n / 128 == 0 then [] else Groups(n / 128 - 1, 128)) + ([128 + n % 128] + rest)
  {
  }

  /** Continuation bits on all bytes but the last. */
  ghost predicate WellFormed(s: Bytes) {
    s != [] && s[|s| - 1] < 128 && forall i :: 0 <= i < |s| - 1 ==> s[i] >= 128
  }

  /** The number that a run of continued bytes and one more stand for. */
  function Value(s: Bytes): nat {
    if |s| == 0 then 0 else if |s| == 1 then s[0] % 128 else (Value(s[..|s| - 1]) + 1) * 128 + s[|s| - 1] % 128
  }

  lemma {:induction false} GroupsForm(n: nat, mark: byte)
    requires mark == 0 || mark == 128
    ensures var s := Groups(n, mark);
            && s != [] && Value(s) == n && s[|s| - 1] / 128 == mark / 128
            && forall i :: 0 <= i < |s| - 1 ==> s[i] >= 128
  {
    if n < 128 {
      MarkedByte(n, mark);
    } else {
      MarkedByte(n % 128, mark);
      GroupsForm(n / 128 - 1, 128);
      var front, b := Groups(n / 128 - 1, 128), n % 128 + mark;
      hide Groups;
      ValueMore(front, b);
      Continued(front);
      assert Groups(n, mark) == front + [b] by { GroupsMore(n, mark); }
      assert (n / 128 - 1 + 1) * 128 + n % 128 == n;
    }
  }

  lemma GroupsMore(n: nat, mark: byte)
    requires n >= 128 && (mark == 0 || mark == 128)
    ensures Groups(n, mark) == Groups(n / 128 - 1, 128) + [n % 128 + mark]
  {
  }

  lemma Continued(front: Bytes)
    requires front != [] && front[|front| - 1] / 128 == 1
    ensures front[|front| - 1] >= 128
  {
  }

  lemma MarkedByte(d: nat, mark: byte)
    requires d < 128 && (mark == 0 || mark == 128)
    ensures (d + mark) % 128 == d && (d + mark) / 128 == mark / 128
  {
  }

  lemma ValueMore(front: Bytes, b: byte)
    requires front != []
    ensures Value(front + [b]) == (Value(front) + 1) * 128 + b % 128
  {
  }

  lemma {:induction false} ValueGroups(s: Bytes, mark: byte)
    requires s != [] && (mark == 0 || mark == 128) && s[|s| - 1] / 128 == mark / 128 && forall i :: 0 <= i < |s| - 1 ==> s[i] >= 128
    ensures Groups(Value(s), mark) == s
  {
    if |s| > 1 {
      hide Groups, Value;
      var front, b := s[..|s| - 1], s[|s| - 1];
      assert s == front + [b];
      FrontMarked(front);
      ValueGroups(front, 128);
      ValueMore(front, b);
      JoinGroup(Value(front), b, mark);
    } else {
      OneGroup(s[0], mark);
    }
  }

  lemma FrontMarked(front: Bytes)
    requires front != [] && forall i :: 0 <= i < |front| ==> front[i] >= 128
    ensures front[|front| - 1] / 128 == 128 as nat / 128
  {
  }

  lemma OneGroup(b: byte, mark: byte)
    requires b / 128 == mark / 128 && (mark == 0 || mark == 128)
    ensures Groups(Value([b]), mark) == [b]
  {
  }

  lemma JoinGroup(v: nat, b: byte, mark: byte)
    requires b / 128 == mark / 128 && (mark == 0 || mark == 128)
    ensures Groups((v + 1) * 128 + b % 128, mark) == Groups(v, 128) + [b]
  {
    NextGroup(v, b, mark);
    GroupsMore((v + 1) * 128 + b % 128, mark);
  }

  lemma NextGroup(v: nat, b: byte, mark: byte)
    requires b / 128 == mark / 128 && (mark == 0 || mark == 128)
    ensures var n := (v + 1) * 128 + b % 128; n / 128 - 1 == v && n % 128 + mark == b
  {
  }

  /** Numbers and well-formed strings correspond one to one. */
  lemma VlqBijection(n: nat, s: Bytes)
    ensures WellFormed(Vlq(n)) && Value(Vlq(n)) == n
    ensures WellFormed(s) ==> Vlq(Value(s)) == s
  {
    GroupsForm(n, 0);
    if WellFormed(s) { ValueGroups(s, 0); }
  }

  /** The bytes of numbers up to three groups: the continued groups come first, and each of their
      values counts from one. */
  lemma VlqBytes(n: nat)
    ensures n < 128 ==> Vlq(n) == [n]
    ensures 128 <= n < 16512 ==> Vlq(n) == [128 + (n - 128) / 128, (n - 128) % 128]
    ensures 16512 <= n < 2113664 ==> var m := n - 16512; Vlq(n) == [128 + m / 16384, 128 + m / 128 % 128, m % 128]
  {
    if 128 <= n < 16512 {
      TwoGroups(n, 0);
    } else if 16512 <= n < 2113664 {
      var m := n - 16512;
      TwoGroups(n / 128 - 1, 128);
      assert (n / 128 - 1 - 128) == m / 128 && m / 128 / 128 == m / 16384;
    }
  }

  lemma TwoGroups(n: nat, mark: byte)
    requires 128 <= n < 16512 && (mark == 0 || mark == 128)
    ensures Groups(n, mark) == [128 + (n - 128) / 128, (n - 128) % 128 + mark]
  {
    assert n / 128 - 1 == (n - 128) / 128 < 128 && n % 128 == (n - 128) % 128;
  }

  /** Reads one number off the front. */
  method DecodeVlq(b: Bytes) returns (r: Option<(nat, Bytes)>)
    ensures r == ParseVlq(b)
  {
    if b == [] { return None; }
    var i := 0;
    var val: nat := b[0] % 128;
    while b[i] >= 128
      invariant 0 <= i < |b| && val == Value(b[..i + 1]) && forall j :: 0 <= j < i ==> b[j] >= 128
      decreases |b| - i
    {
      i := i + 1;
      if i == |b| {
        NoEnd(b);
        return None;
      }
      assert b[..i + 1][..i] == b[..i];
      val := (val + 1) * 128 + b[i] % 128;
    }
    EndAt(b, i);
    r := Some((val, b[i + 1..]));
  }

  function RunLength(b: Bytes): Option<nat> {
    if b == [] then None
    else if b[0] < 128 then Some(1)
    else match RunLength(b[1..]) case None => None case Some(n) => Some(n + 1)
  }

  function ParseVlq(b: Bytes): Option<(nat, Bytes)> {
    match RunLength(b) case None => None case Some(n) => if n <= |b| then Some((Value(b[..n]), b[n..])) else None
  }

  lemma {:induction false} EndAt(b: Bytes, i: nat)
    requires i < |b| && b[i] < 128 && forall j :: 0 <= j < i ==> b[j] >= 128
    ensures RunLength(b) == Some(i + 1)
  {
    if i > 0 { EndAt(b[1..], i - 1); }
  }

  lemma {:induction false} NoEnd(b: Bytes)
    requires forall j :: 0 <= j < |b| ==> b[j] >= 128
    ensures RunLength(b) == None
  {
    if b != [] { NoEnd(b[1..]); }
  }

  lemma VlqBack(n: nat, rest: Bytes)
    ensures ParseVlq(Vlq(n) + rest) == Some((n, rest))
  {
    GroupsForm(n, 0);
    var s := Vlq(n);
    var b := s + rest;
    EndAt(b, |s| - 1);
    assert b[..|s|] == s && b[|s|..] == rest;
  }

  // ---- Entries --------------------------------------------------------------------------------------

  datatype Entry = Entry(name: Bytes, hash: Bytes, size: nat)

  predicate GoodEntry(e: Entry) { NUL !in e.name && |e.hash| == HASH_SIZE && e.size < 0x1_0000_0000 }

  function Be(n: nat, k: nat): (r: Bytes)
    ensures |r| == k
  {
    if k == 0 then [] else Be(n / 256, k - 1) + [n % 256]
  }

  function FromBe(s: Bytes): nat { if s == [] then 0 else FromBe(s[..|s| - 1]) * 256 + s[|s| - 1] }

  lemma {:induction false} BeBack(n: nat, k: nat, limit: nat)
    requires n < limit && limit == (if k == 0 then 1 else if k == 1 then 256 else if k == 2 then 65536 else if k == 3 then 0x100_0000 else 0x1_0000_0000) && k <= 4
    ensures FromBe(Be(n, k)) == n
  {
    if k > 0 {
      BeBack(n / 256, k - 1, limit / 256);
      assert Be(n, k)[..k - 1] == Be(n / 256, k - 1);
    }
  }

  /** The most significant byte comes first. */
  lemma BeBytes(n: nat)
    ensures Be(n, 4) == [n / 0x100_0000 % 256, n / 0x1_0000 % 256, n / 256 % 256, n % 256]
    ensures Be(n, 2) == [n / 256 % 256, n % 256]
  {
    assert n / 256 / 256 == n / 0x1_0000 && n / 256 / 256 / 256 == n / 0x100_0000;
    assert Be(n / 256 / 256 / 256, 1) == [n / 256 / 256 / 256 % 256] by { assert Be(n / 256 / 256 / 256 / 256, 0) == []; }
    assert Be(n / 256 / 256, 2) == [n / 256 / 256 / 256 % 256, n / 256 / 256 % 256];
    assert Be(n / 256, 3) == [n / 256 / 256 / 256 % 256, n / 256 / 256 % 256, n / 256 % 256];
    assert Be(n / 256, 1) == [n / 256 % 256] by { assert Be(n / 256 / 256, 0) == []; }
  }

  /** Times, device, inode, mode, owner, size, object name and name length: fixed width. */
  function Header(e: Entry): (r: Bytes) {
    Be(1, 4) + Be(0, 4) + Be(1, 4) + Be(0, 4) + Be(0, 4) + Be(0, 4) + Be(MODE, 4) + Be(0, 4) + Be(0, 4)
    + Be(e.size, 4) + e.hash + Be(if |e.name| < NAME_MASK then |e.name| else NAME_MASK, 2)
  }

  /** The header byte for byte: two times of one second, no device and inode, the mode of a regular
      file, no owner, the size, the object name, and the name's length up to what twelve bits hold. */
  lemma HeaderBytes(e: Entry)
    requires |e.hash| == HASH_SIZE
    ensures var b, n := Header(e), if |e.name| < 0xFFF then |e.name| else 0xFFF;
            && |b| == 62
            && b[..36] == [0, 0, 0, 1, 0, 0, 0, 0, 0, 0, 0, 1, 0, 0, 0, 0, 0, 0, 0, 0, 0, 0, 0, 0, 0, 0, 0x81, 0xA4, 0, 0, 0, 0, 0, 0, 0, 0]
            && b[36..40] == [e.size / 0x100_0000 % 256, e.size / 0x1_0000 % 256, e.size / 256 % 256, e.size % 256]
            && b[40..60] == e.hash && b[60..] == [n / 256, n % 256]
  {
    hide Be;
    FrontBytes();
    BeBytes(e.size);
    var n := if |e.name| < NAME_MASK then |e.name| else NAME_MASK;
    BeBytes(n);
    var front := Be(1, 4) + Be(0, 4) + Be(1, 4) + Be(0, 4) + Be(0, 4) + Be(0, 4) + Be(MODE, 4) + Be(0, 4) + Be(0, 4);
    FourFields(front, Be(e.size, 4), e.hash, Be(n, 2));
    assert n / 256 % 256 == n / 256;
  }

  lemma FourFields(a: Bytes, b: Bytes, c: Bytes, d: Bytes)
    ensures var s := a + b + c + d;
            s[..|a|] == a && s[|a|..|a| + |b|] == b && s[|a| + |b|..|a| + |b| + |c|] == c && s[|a| + |b| + |c|..] == d
  {
  }

  lemma FrontBytes()
    ensures Be(1, 4) + Be(0, 4) + Be(1, 4) + Be(0, 4) + Be(0, 4) + Be(0, 4) + Be(MODE, 4) + Be(0, 4) + Be(0, 4)
         == [0, 0, 0, 1, 0, 0, 0, 0, 0, 0, 0, 1, 0, 0, 0, 0, 0, 0, 0, 0, 0, 0, 0, 0, 0, 0, 0x81, 0xA4, 0, 0, 0, 0, 0, 0, 0, 0]
  {
    hide Be;
    BeBytes(0);
    BeBytes(1);
    BeBytes(MODE);
    assert Be(0, 4) == [0, 0, 0, 0] && Be(1, 4) == [0, 0, 0, 1] && Be(MODE, 4) == [0, 0, 0x81, 0xA4];
  }

  function Common(a: Bytes, b: Bytes): (n: nat)
    ensures n <= |a| && n <= |b| && a[..n] == b[..n]
    ensures n < |a| && n < |b| ==> a[n] != b[n]
  {
    if a == [] || b == [] || a[0] != b[0] then 0
    else
      var n := Common(a[1..], b[1..]);
      assert a[..n + 1] == [a[0]] + a[1..][..n] && b[..n + 1] == [b[0]] + b[1..][..n];
      n + 1
  }

  /** One entry after `prev`: how much of the previous name to drop, and what to put there. */
  function EntryBytes(e: Entry, prev: Bytes): Bytes {
    var keep := Common(prev, e.name);
    Header(e) + Vlq(|prev| - keep) + e.name[keep..] + [NUL]
  }

  method WriteEntry(e: Entry, prev: Bytes) returns (o: Bytes)
    ensures o == EntryBytes(e, prev)
  {
    hide Header, Vlq, Common;
    o := Header(e);
    var prefix, strip := 0, 0;
    if prev != [] {
      var n := if |prev| < |e.name| then |prev| else |e.name|;
      while prefix < n && prev[prefix] == e.name[prefix]
        invariant 0 <= prefix <= n && prev[..prefix] == e.name[..prefix]
      {
        prefix := prefix + 1;
      }
      strip := |prev| - prefix;
    }
    CommonIs(prev, e.name, prefix);
    var code := EncodeVlq(strip);
    o := o + code;
    o := o + e.name[prefix..];
    o := o + [NUL];
  }

  lemma CommonIs(a: Bytes, b: Bytes, n: nat)
    requires n <= |a| && n <= |b| && a[..n] == b[..n] && (n < |a| && n < |b| ==> a[n] != b[n])
    ensures Common(a, b) == n
  {
    SamePrefix(a, b, n);
    SamePrefix(a, b, Common(a, b));
  }

  lemma SamePrefix(a: Bytes, b: Bytes, n: nat)
    requires n <= |a| && n <= |b| && a[..n] == b[..n]
    ensures forall i :: 0 <= i < n ==> a[i] == b[i]
  {
  }

  function Stream(entries: seq<Entry>, prev: Bytes): Bytes
    decreases |entries|
  {
    if entries == [] then [] else EntryBytes(entries[0], prev) + Stream(entries[1..], entries[0].name)
  }

  method WriteEntries(entries: seq<Entry>) returns (body: Bytes)
    ensures body == Stream(entries, [])
  {
    body := [];
    var prev: Bytes := [];
    var i := 0;
    assert entries[0..] == entries;
    while i < |entries|
      invariant 0 <= i <= |entries| && Stream(entries, []) == body + Stream(entries[i..], prev)
    {
      var o := WriteEntry(entries[i], prev);
      assert entries[i..][1..] == entries[i + 1..];
      assert body + (o + Stream(entries[i + 1..], entries[i].name)) == body + o + Stream(entries[i + 1..], entries[i].name);
      body := body + o;
      prev := entries[i].name;
      i := i + 1;
    }
    assert entries[i..] == [] && body + [] == body;
  }

  // ---- Decoding -----------------------------------------------------------------------------------------

  function FindNul(b: Bytes): (r: Option<nat>)
    ensures r.Some? ==> r.value < |b|
  {
    if b == [] then None else if b[0] == NUL then Some(0) else match FindNul(b[1..]) case None => None case Some(i) => Some(i + 1)
  }

  /** One entry, given only the previous name. */
  function ReadEntry(b: Bytes, prev: Bytes): Option<(Entry, Bytes)> {
    if |b| < HEADER then None
    else match ParseVlq(b[HEADER..])
      case None => None
      case Some((strip, rest)) =>
        match FindNul(rest)
        case None => None
        case Some(i) =>
          if strip > |prev| then None
          else Some((Entry(prev[..|prev| - strip] + rest[..i], b[40..60], FromBe(b[36..40])), rest[i + 1..]))
  }

  function ReadEntries(n: nat, b: Bytes, prev: Bytes): Option<(seq<Entry>, Bytes)> {
    if n == 0 then Some(([], b))
    else match ReadEntry(b, prev)
      case None => None
      case Some((e, rest)) => match ReadEntries(n - 1, rest, e.name) case None => None case Some((es, last)) => Some(([e] + es, last))
  }

  lemma {:induction false} FindNulAt(name: Bytes, rest: Bytes)
    requires NUL !in name
    ensures FindNul(name + [NUL] + rest) == Some(|name|)
  {
    if name != [] {
      assert (name + [NUL] + rest)[1..] == name[1..] + [NUL] + rest;
      FindNulAt(name[1..], rest);
    }
  }

  lemma HeaderParts(e: Entry, rest: Bytes)
    requires GoodEntry(e)
    ensures |Header(e)| == HEADER
    ensures var b := Header(e) + rest;
            b[HEADER..] == rest && b[40..60] == e.hash && FromBe(b[36..40]) == e.size
  {
    BeBack(e.size, 4, 0x1_0000_0000);
    var front := Be(1, 4) + Be(0, 4) + Be(1, 4) + Be(0, 4) + Be(0, 4) + Be(0, 4) + Be(MODE, 4) + Be(0, 4) + Be(0, 4);
    assert |front| == 36;
    var tail := Be(if |e.name| < NAME_MASK then |e.name| else NAME_MASK, 2);
    FourParts(front, Be(e.size, 4), e.hash, tail, rest);
  }

  lemma FourParts(a: Bytes, b: Bytes, c: Bytes, d: Bytes, rest: Bytes)
    ensures var s := a + b + c + d + rest;
            s[|a|..|a| + |b|] == b && s[|a| + |b|..|a| + |b| + |c|] == c && s[|a| + |b| + |c| + |d|..] == rest
  {
  }

  /** Decoding an entry returns it and stops right behind it. */
  lemma EntryBack(e: Entry, prev: Bytes, rest: Bytes)
    requires GoodEntry(e)
    ensures ReadEntry(EntryBytes(e, prev) + rest, prev) == Some((e, rest))
  {
    hide Header, Vlq, ParseVlq, FromBe, FindNul, Common;
    var keep := Common(prev, e.name);
    var strip, tail := |prev| - keep, e.name[keep..];
    var body := tail + [NUL] + rest;
    FiveParts(Header(e), Vlq(strip), tail, rest);
    HeaderParts(e, Vlq(strip) + body);
    VlqBack(strip, body);
    TailParts(tail, rest);
    KeptName(prev, e.name, keep);
  }

  lemma FiveParts(a: Bytes, b: Bytes, c: Bytes, rest: Bytes)
    ensures a + b + c + [NUL] + rest == a + (b + (c + [NUL] + rest))
  {
  }

  lemma TailParts(tail: Bytes, rest: Bytes)
    requires NUL !in tail
    ensures var body := tail + [NUL] + rest; FindNul(body) == Some(|tail|) && body[..|tail|] == tail && body[|tail| + 1..] == rest
  {
    FindNulAt(tail, rest);
  }

  lemma KeptName(prev: Bytes, name: Bytes, keep: nat)
    requires keep <= |prev| && keep <= |name| && prev[..keep] == name[..keep]
    ensures prev[..|prev| - (|prev| - keep)] + name[keep..] == name
  {
  }

  /** A decoder that keeps only the previous name recovers any list of names without NUL. */
  lemma {:induction false} StreamBack(entries: seq<Entry>, prev: Bytes, rest: Bytes)
    requires forall i :: 0 <= i < |entries| ==> GoodEntry(entries[i])
    ensures ReadEntries(|entries|, Stream(entries, prev) + rest, prev) == Some((entries, rest))
    decreases |entries|
  {
    hide EntryBytes, ReadEntry, GoodEntry;
    if entries == [] {
      assert [] + rest == rest;
    } else {
      var e, more := entries[0], Stream(entries[1..], entries[0].name);
      EntryBack(e, prev, more + rest);
      StreamBack(entries[1..], e.name, rest);
      assert Stream(entries, prev) + rest == EntryBytes(e, prev) + (more + rest);
      assert [e] + entries[1..] == entries;
    }
  }
}

/** The text of `MERGE_HEAD` and `ORIG_HEAD`: hexadecimal object names, one a line. */
module MergeFiles {
  import opened Wrappers

  /** Twenty raw bytes. */
  type Oid = string

  predicate IsOid(id: Oid) { |id| == 20 && forall i :: 0 <= i < |id| ==> id[i] < 256 as char }

  const DIGITS := "0123456789abcdef"

  function HexByte(c: char): (d: string)
    requires c < 256 as char
    ensures |d| == 2
  {
    [DIGITS[c as int / 16], DIGITS[c as int % 16]]
  }

  function Hex(bytes: string): (r: string)
    requires forall i :: 0 <= i < |bytes| ==> bytes[i] < 256 as char
    ensures |r| == 2 * |bytes|
  {
    if bytes == "" then "" else HexByte(bytes[0]) + Hex(bytes[1..])
  }

  function Digit(c: char): Option<nat> {
    if '0' <= c <= '9' then Some(c as int - '0' as int)
    else if 'a' <= c <= 'f' then Some(c as int - 'a' as int + 10)
    else if 'A' <= c <= 'F' then Some(c as int - 'A' as int + 10)
    else None
  }

  function Unhex(s: string): Option<string>
    requires |s| % 2 == 0
  {
    if s == "" then Some("")
    else match (Digit(s[0]), Digit(s[1]))
      case (Some(a), Some(b)) =>
        (match Unhex(s[2..]) case Some(rest) => Some([(16 * a + b) as char] + rest) case None => None)
      case _ => None
  }

  /** Digits are read in either case, and nothing else is. */
  lemma DigitLaw(c: char)
    ensures forall i :: 0 <= i < 16 && (c == "0123456789abcdef"[i] || c == "0123456789ABCDEF"[i]) ==> Digit(c) == Some(i)
    ensures Digit(c).Some? ==> Digit(c).value < 16 && (c == "0123456789abcdef"[Digit(c).value] || c == "0123456789ABCDEF"[Digit(c).value])
  {
  }

  /** Exactly forty digits. */
  function ParseHash(s: string): Option<Oid> { if |s| == 40 then Unhex(s) else None }

  predicate Blank(c: char) { c == ' ' || c == '\t' || c == '\r' }

  function TrimLeft(s: string, newline: bool): string {
    if s != "" && (Blank(s[0]) || (newline && s[0] == '\n')) then TrimLeft(s[1..], newline) else s
  }

  function TrimRight(s: string, newline: bool): string {
    if s != "" && (Blank(s[|s| - 1]) || (newline && s[|s| - 1] == '\n')) then TrimRight(s[..|s| - 1], newline) else s
  }

  function Trim(s: string, newline: bool): string { TrimRight(TrimLeft(s, newline), newline) }

  /** One object name on a line by itself. */
  function ParseOneHash(text: string): Option<Oid> { ParseHash(Trim(text, true)) }

  function Lines(s: string): (r: seq<string>)
    ensures |r| > 0
  {
    if s == "" then [""]
    else if s[0] == '\n' then [""] + Lines(s[1..])
    else
      var r := Lines(s[1..]);
      [[s[0]] + r[0]] + r[1..]
  }

  function ParseLines(lines: seq<string>): Option<seq<Oid>> {
    if lines == [] then Some([])
    else
      var line := Trim(lines[0], false);
      if line == "" then ParseLines(lines[1..])
      else match (ParseOneHash(line), ParseLines(lines[1..]))
        case (Some(h), Some(rest)) => Some([h] + rest)
        case _ => None
  }

  /** The parents recorded in `MERGE_HEAD`. */
  method ParseHeads(text: string) returns (r: Option<seq<Oid>>)
    ensures r == ParseLines(Lines(text))
  {
    var lines := Lines(text);
    var heads: seq<Oid> := [];
    var i := 0;
    assert lines[0..] == lines;
    AfterNone(ParseLines(lines));
    while i < |lines|
      invariant 0 <= i <= |lines|
      invariant ParseLines(lines) == After(heads, ParseLines(lines[i..]))
    {
      assert lines[i..][1..] == lines[i + 1..];
      AfterOne(heads, ParseLines(lines[i + 1..]));
      var line := Trim(lines[i], false);
      if line != "" {
        var h := ParseOneHash(line);
        if h.None? { return None; }
        heads := heads + [h.value];
      }
      i := i + 1;
    }
    assert lines[i..] == [];
    assert heads + [] == heads;
    r := Some(heads);
  }

  function After(heads: seq<Oid>, rest: Option<seq<Oid>>): Option<seq<Oid>> {
    match rest case None => None case Some(more) => Some(heads + more)
  }

  lemma AfterNone(rest: Option<seq<Oid>>)
    ensures After([], rest) == rest
  {
    if rest.Some? { assert [] + rest.value == rest.value; }
  }

  lemma AfterOne(heads: seq<Oid>, rest: Option<seq<Oid>>)
    ensures forall h :: After(heads, After([h], rest)) == After(heads + [h], rest)
  {
    if rest.Some? {
      forall h ensures heads + ([h] + rest.value) == heads + [h] + rest.value {}
    }
  }

  function HeadText(id: Oid): string
    requires IsOid(id)
  {
    Hex(id) + "\n"
  }

  function HeadsText(ids: seq<Oid>): string
    requires forall i :: 0 <= i < |ids| ==> IsOid(ids[i])
  {
    if ids == [] then "" else HeadText(ids[0]) + HeadsText(ids[1..])
  }

  predicate HexChar(c: char) { '0' <= c <= '9' || 'a' <= c <= 'f' }

  lemma {:induction false} HexUnhex(bytes: string)
    requires forall i :: 0 <= i < |bytes| ==> bytes[i] < 256 as char
    ensures Unhex(Hex(bytes)) == Some(bytes)
    ensures forall i :: 0 <= i < |Hex(bytes)| ==> HexChar(Hex(bytes)[i])
  {
    hide HexByte, Digit, HexChar, Hex, Unhex;
    if bytes == "" {
      HexNone();
    } else {
      HexUnhex(bytes[1..]);
      HexMore(bytes[0], bytes[1..]);
      assert bytes == [bytes[0]] + bytes[1..];
    }
  }

  /** Each byte becomes two digits, the higher one first. */
  lemma {:induction false} HexDigits(bytes: string, i: nat)
    requires i < |bytes| && forall k :: 0 <= k < |bytes| ==> bytes[k] < 256 as char
    ensures Hex(bytes)[2 * i] == DIGITS[bytes[i] as int / 16] && Hex(bytes)[2 * i + 1] == DIGITS[bytes[i] as int % 16]
  {
    if i > 0 {
      HexDigits(bytes[1..], i - 1);
      assert bytes[1..][i - 1] == bytes[i];
    }
  }

  /** One line for each head, in their order. */
  lemma {:induction false} HeadsLines(ids: seq<Oid>, i: nat)
    requires i < |ids| && forall k :: 0 <= k < |ids| ==> IsOid(ids[k])
    ensures |HeadsText(ids)| == 41 * |ids| && HeadsText(ids)[41 * i..41 * i + 41] == Hex(ids[i]) + "\n"
  {
    var rest := ids[1..];
    assert forall k :: 0 <= k < |rest| ==> rest[k] == ids[k + 1];
    var first := HeadText(ids[0]);
    if i > 0 {
      HeadsLines(rest, i - 1);
      Later(first, HeadsText(rest), 41 * (i - 1), 41 * i);
    } else {
      HeadsLength(rest);
      assert (first + HeadsText(rest))[0..41] == first;
    }
  }

  lemma Later(a: string, b: string, from: nat, to: nat)
    requires from <= to <= |b|
    ensures (a + b)[|a| + from..|a| + to] == b[from..to]
  {
  }

  lemma {:induction false} HeadsLength(ids: seq<Oid>)
    requires forall k :: 0 <= k < |ids| ==> IsOid(ids[k])
    ensures |HeadsText(ids)| == 41 * |ids|
  {
    if ids != [] { HeadsLength(ids[1..]); }
  }

  lemma HexNone()
    ensures Hex("") == "" && Unhex("") == Some("")
  {
  }

  lemma HexMore(c: char, rest: string)
    requires c < 256 as char && forall i :: 0 <= i < |rest| ==> rest[i] < 256 as char
    requires Unhex(Hex(rest)) == Some(rest) && forall i :: 0 <= i < |Hex(rest)| ==> HexChar(Hex(rest)[i])
    ensures (forall i :: 0 <= i < |[c] + rest| ==> ([c] + rest)[i] < 256 as char) && Unhex(Hex([c] + rest)) == Some([c] + rest)
    ensures forall i :: 0 <= i < |Hex([c] + rest)| ==> HexChar(Hex([c] + rest)[i])
  {
    hide HexByte, Digit, HexChar, Unhex;
    var bytes := [c] + rest;
    assert bytes[0] == c && bytes[1..] == rest;
    assert Hex(bytes) == HexByte(c) + Hex(rest);
    ByteBack(c);
    FirstByte(HexByte(c), Hex(rest), c);
  }

  lemma FirstByte(d: string, rest: string, c: char)
    requires |d| == 2 && |rest| % 2 == 0 && c < 256 as char
    requires Digit(d[0]) == Some(c as int / 16) && Digit(d[1]) == Some(c as int % 16) && HexChar(d[0]) && HexChar(d[1])
    requires forall i :: 0 <= i < |rest| ==> HexChar(rest[i])
    ensures forall i :: 0 <= i < |d + rest| ==> HexChar((d + rest)[i])
    ensures Unhex(d + rest) == match Unhex(rest) case None => None case Some(b) => Some([c] + b)
  {
  }

  lemma ByteBack(c: char)
    requires c < 256 as char
    ensures var d := HexByte(c);
            |d| == 2 && Digit(d[0]) == Some(c as int / 16) && Digit(d[1]) == Some(c as int % 16) && HexChar(d[0]) && HexChar(d[1])
  {
    assert forall n :: 0 <= n < 16 ==> Digit(DIGITS[n]) == Some(n) && HexChar(DIGITS[n]);
  }

  /** Trimming leaves a hexadecimal name alone and drops the line end behind it. */
  lemma TrimName(s: string)
    requires s != "" && forall i :: 0 <= i < |s| ==> HexChar(s[i])
    ensures Trim(s, false) == s && Trim(s, true) == s && Trim(s + "\n", true) == s
  {
  }

  lemma {:induction false} FirstLine(s: string, rest: string)
    requires '\n' !in s
    ensures Lines(s + "\n" + rest) == [s] + Lines(rest)
  {
    var t := s + "\n" + rest;
    if s == "" {
      assert t[1..] == rest;
    } else {
      FirstLine(s[1..], rest);
      assert t[1..] == s[1..] + "\n" + rest;
      assert [s[0]] + s[1..] == s;
    }
  }

  /** What `ORIG_HEAD` names is read back. */
  lemma OneHashBack(id: Oid)
    requires IsOid(id)
    ensures ParseOneHash(HeadText(id)) == Some(id)
  {
    HexUnhex(id);
    TrimName(Hex(id));
  }

  /** The heads written to `MERGE_HEAD` are read back in order. */
  lemma {:induction false} HeadsBack(ids: seq<Oid>)
    requires forall i :: 0 <= i < |ids| ==> IsOid(ids[i])
    ensures ParseLines(Lines(HeadsText(ids))) == Some(ids)
  {
    hide Lines, ParseLines, Hex;
    if ids == [] {
      NoHeads();
    } else {
      HeadsBack(ids[1..]);
      FirstHead(ids[0], HeadsText(ids[1..]));
      assert HeadsText(ids) == Hex(ids[0]) + "\n" + HeadsText(ids[1..]);
      assert ids == [ids[0]] + ids[1..];
    }
  }

  lemma NoHeads()
    ensures ParseLines(Lines("")) == Some([])
  {
    assert Lines("") == [""] && ParseLines([""]) == ParseLines([""][1..]);
  }

  lemma FirstHead(id: Oid, rest: string)
    requires IsOid(id) && ParseLines(Lines(rest)).Some?
    ensures ParseLines(Lines(Hex(id) + "\n" + rest)) == Some([id] + ParseLines(Lines(rest)).value)
  {
    HexUnhex(id);
    TrimName(Hex(id));
    assert '\n' !in Hex(id);
    FirstLine(Hex(id), rest);
    hide Lines, Trim, Hex;
    var lines := Lines(Hex(id) + "\n" + rest);
    assert lines[0] == Hex(id) && lines[1..] == Lines(rest);
  }
}

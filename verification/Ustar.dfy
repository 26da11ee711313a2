/** The canonical USTAR header: the encoder, an independent decoder, and what makes them agree. */
module Ustar {
  import opened Prelude
  import opened Sequences
  import opened Slashes

  type Byte = x: int | 0 <= x < 256

  const NAME_BYTES := 100
  const PREFIX_BYTES := 155
  const HEADER_BYTES := 512
  const CHECKSUM_OFFSET := 148
  const CHECKSUM_BYTES := 8
  const MAGIC: seq<Byte> := [117, 115, 116, 97, 114, 0, 48, 48]
  const SPACES: seq<Byte> := [32, 32, 32, 32, 32, 32, 32, 32]

  datatype Fields = Fields(name: string, size: int, mode: int, kind: Byte)

  // ---- texts ----------------------------------------------------------------------------------

  predicate IsAscii(s: string) {
    forall i :: 0 <= i < |s| ==> (s[i] as int) < 128
  }

  function Ascii(s: string): (r: seq<Byte>)
    requires IsAscii(s)
    ensures |r| == |s| && forall i :: 0 <= i < |s| ==> r[i] == s[i] as int
  {
    seq(|s|, i requires 0 <= i < |s| => s[i] as int)
  }

  function Zeros(n: nat): (r: seq<Byte>)
    ensures |r| == n && forall i :: 0 <= i < n ==> r[i] == 0
  {
    seq(n, _ => 0)
  }

  /** A text padded with NUL to its field, if it is ASCII and fits. */
  function TextField(value: string, width: nat): (r: Option<seq<Byte>>)
    ensures r.Some? <==> IsAscii(value) && |value| <= width
    ensures r.Some? ==> |r.value| == width && r.value[..|value|] == Ascii(value)
                        && r.value[|value|..] == Zeros(width - |value|)
  {
    if IsAscii(value) && |value| <= width then Some(Ascii(value) + Zeros(width - |value|)) else None
  }

  function Text(bytes: seq<Byte>): string {
    if bytes == [] || bytes[0] == 0 then "" else [bytes[0] as char] + Text(bytes[1..])
  }

  predicate HasNul(s: string) {
    exists i :: 0 <= i < |s| && s[i] == 0 as char
  }

  /** A padded text reads back unless it holds a NUL, which cuts it short. */
  lemma {:induction false} TextOfField(s: string, n: nat)
    requires IsAscii(s)
    ensures if HasNul(s) then |Text(Ascii(s) + Zeros(n))| < |s| else Text(Ascii(s) + Zeros(n)) == s
  {
    if s == "" {
      assert Ascii(s) + Zeros(n) == Zeros(n);
    } else {
      assert (Ascii(s) + Zeros(n))[1..] == Ascii(s[1..]) + Zeros(n);
      TextOfField(s[1..], n);
      assert HasNul(s) <==> s[0] == 0 as char || HasNul(s[1..]) by { NulInRest(s); }
    }
  }

  lemma NulInRest(s: string)
    requires s != ""
    ensures HasNul(s) <==> s[0] == 0 as char || HasNul(s[1..])
  {
    if HasNul(s[1..]) {
      var i :| 0 <= i < |s[1..]| && s[1..][i] == 0 as char;
      assert s[i + 1] == 0 as char;
    }
    if HasNul(s) && s[0] != 0 as char {
      var i :| 0 <= i < |s| && s[i] == 0 as char;
      assert s[1..][i - 1] == 0 as char;
    }
  }

  // ---- octal numbers --------------------------------------------------------------------------

  function Pow8(n: nat): nat {
    if n == 0 then 1 else 8 * Pow8(n - 1)
  }

  /** Octal digits, most significant first, padded with '0' to at least the width. */
  function OctalText(v: nat, width: nat): seq<Byte>
    decreases v, width
  {
    if v < 8 && width <= 1 then [48 + v]
    else OctalText(v / 8, if width > 0 then width - 1 else 0) + [48 + v % 8]
  }

  function OctalValue(digits: seq<Byte>): int {
    if digits == [] then 0 else 8 * OctalValue(digits[..|digits| - 1]) + digits[|digits| - 1] - 48
  }

  lemma {:induction false} OctalReadsBack(v: nat, width: nat)
    ensures OctalValue(OctalText(v, width)) == v
    decreases v, width
  {
    if v < 8 && width <= 1 {
      assert OctalText(v, width)[..0] == [];
    } else {
      var rest := OctalText(v / 8, if width > 0 then width - 1 else 0);
      OctalReadsBack(v / 8, if width > 0 then width - 1 else 0);
      assert (rest + [48 + v % 8])[..|rest|] == rest;
    }
  }

  /** A number below 8^width fills exactly its width. */
  lemma {:induction false} OctalFits(v: nat, width: nat)
    requires width >= 1 && v < Pow8(width)
    ensures |OctalText(v, width)| == width
    decreases width
  {
    if width > 1 {
      assert v / 8 < Pow8(width - 1);
      OctalFits(v / 8, width - 1);
    }
  }

  /** A number as octal digits and a closing NUL, if it is not negative and fits. */
  function OctalField(value: int, width: nat): Option<seq<Byte>>
    requires width >= 1
  {
    if value < 0 || value >= Pow8(width - 1) then None else Some(OctalText(value, width - 1) + [0])
  }

  lemma OctalFieldFits(value: int, width: nat)
    requires width >= 2 && OctalField(value, width).Some?
    ensures |OctalField(value, width).value| == width
    ensures OctalValue(OctalField(value, width).value[..width - 1]) == value
  {
    OctalFits(value, width - 1);
    OctalReadsBack(value, width - 1);
    assert OctalField(value, width).value[..width - 1] == OctalText(value, width - 1);
  }

  // ---- splitting a long name ------------------------------------------------------------------

  datatype NameFields = NameFields(name: string, prefix: string)

  function FirstSplit(parts: seq<string>, index: nat): (r: Option<NameFields>)
    decreases |parts| - index
  {
    if index >= |parts| then None
    else
      var prefix, suffix := Join(parts[..index]), Join(parts[index..]);
      if |prefix| <= PREFIX_BYTES && |suffix| <= NAME_BYTES then Some(NameFields(suffix, prefix))
      else FirstSplit(parts, index + 1)
  }

  function SplitName(name: string): Option<NameFields> {
    if !IsAscii(name) then None
    else if |name| <= NAME_BYTES then Some(NameFields(name, ""))
    else FirstSplit(Split(name), 1)
  }

  /** The name a reader of the two fields puts together again. */
  function Rejoin(f: NameFields): string {
    if f.prefix == "" then f.name else f.prefix + "/" + f.name
  }

  lemma {:induction false} FirstSplitCuts(parts: seq<string>, index: nat)
    requires 1 <= index && FirstSplit(parts, index).Some?
    ensures
      var f := FirstSplit(parts, index).value;
      && |f.name| <= NAME_BYTES && |f.prefix| <= PREFIX_BYTES && Join(parts) == f.prefix + "/" + f.name
    decreases |parts| - index
  {
    if index < |parts| {
      JoinHalves(parts, index);
      var prefix, suffix := Join(parts[..index]), Join(parts[index..]);
      if !(|prefix| <= PREFIX_BYTES && |suffix| <= NAME_BYTES) {
        FirstSplitCuts(parts, index + 1);
      }
    }
  }

  /** The fields fit their widths and rejoin to the name, except for 101 bytes with a leading slash. */
  lemma SplitRejoins(name: string)
    requires SplitName(name).Some?
    ensures
      var f := SplitName(name).value;
      && |f.name| <= NAME_BYTES && |f.prefix| <= PREFIX_BYTES
      && (Rejoin(f) == name <==> !(|name| == 101 && name[0] == '/'))
  {
    if |name| > NAME_BYTES {
      var parts := Split(name);
      JoinSplit(name);
      FirstSplitCuts(parts, 1);
      if |name| == 101 && name[0] == '/' {
        LeadingSlash(name);
      }
    }
  }

  lemma LeadingSlash(name: string)
    requires |name| == 101 && name[0] == '/'
    ensures FirstSplit(Split(name), 1) == Some(NameFields(name[1..], ""))
  {
    JoinSplit(name[1..]);
    assert Split(name)[..1] == [""];
    assert Split(name)[1..] == Split(name[1..]);
  }

  lemma SplitStep(c: char, s: string)
    ensures Split([c] + s) == if c == '/' then [""] + Split(s) else [[c] + Split(s)[0]] + Split(s)[1..]
  {
    assert ([c] + s)[1..] == s;
  }

  lemma Regroup(x: seq<string>, y: seq<string>)
    requires |x| >= 1
    ensures (x + y)[0] == x[0] && (x + y)[1..] == x[1..] + y
  {
  }

  lemma Uncons(a: string, tail: string)
    requires a != ""
    ensures a == [a[0]] + a[1..] && a + tail == [a[0]] + (a[1..] + tail)
  {
  }

  /** Splitting around a slash splits the two sides. */
  lemma {:induction false} SplitAround(a: string, b: string)
    ensures Split(a + ("/" + b)) == Split(a) + Split(b)
  {
    if a == "" {
      SplitStep('/', b);
      assert a + ("/" + b) == ['/'] + b;
    } else {
      SplitAround(a[1..], b);
      PrependBoth(a[0], a[1..], a[1..] + ("/" + b), Split(b));
      Uncons(a, "/" + b);
    }
  }

  lemma PrependBoth(c: char, x: string, y: string, z: seq<string>)
    requires Split(y) == Split(x) + z
    ensures Split([c] + y) == Split([c] + x) + z
  {
    SplitStep(c, x);
    SplitStep(c, y);
    hide Split;
    Regroup(Split(x), z);
    Associate([""], Split(x), z);
    Associate([[c] + Split(x)[0]], Split(x)[1..], z);
  }

  lemma {:induction false} LaterSplit(parts: seq<string>, index: nat, k: nat)
    requires 1 <= index <= k < |parts|
    requires |Join(parts[..k])| <= PREFIX_BYTES && |Join(parts[k..])| <= NAME_BYTES
    ensures FirstSplit(parts, index).Some?
    decreases k - index
  {
    if index < k { LaterSplit(parts, index + 1, k); }
  }

  lemma SlashCuts(name: string, i: nat)
    requires i < |name| && name[i] == '/' && i <= PREFIX_BYTES && |name| - i - 1 <= NAME_BYTES
    ensures FirstSplit(Split(name), 1).Some?
  {
    var left, right := Split(name[..i]), Split(name[i + 1..]);
    SplitAround(name[..i], name[i + 1..]);
    assert name == name[..i] + ("/" + name[i + 1..]);
    JoinSplit(name[..i]);
    JoinSplit(name[i + 1..]);
    hide Split, Join, FirstSplit;
    assert (left + right)[..|left|] == left && (left + right)[|left|..] == right;
    LaterSplit(Split(name), 1, |left|);
  }

  /** A name can be encoded exactly when it is short or some slash cuts it within both field widths. */
  lemma SplitExactly(name: string)
    ensures SplitName(name).Some? <==>
              && IsAscii(name)
              && (|name| <= NAME_BYTES
                  || exists i :: 0 <= i < |name| && name[i] == '/' && i <= PREFIX_BYTES && |name| - i - 1 <= NAME_BYTES)
  {
    hide FirstSplit, Split, Join;
    if FirstSplit(Split(name), 1).Some? {
      JoinSplit(name);
      FirstSplitCuts(Split(name), 1);
      assert name[|FirstSplit(Split(name), 1).value.prefix|] == '/';
    }
    forall i | 0 <= i < |name| && name[i] == '/' && i <= PREFIX_BYTES && |name| - i - 1 <= NAME_BYTES
      ensures FirstSplit(Split(name), 1).Some?
    {
      SlashCuts(name, i);
    }
  }

  // ---- the header -----------------------------------------------------------------------------

  function Sum(bytes: seq<Byte>): nat {
    if bytes == [] then 0 else Sum(bytes[..|bytes| - 1]) + bytes[|bytes| - 1]
  }

  lemma {:induction false} SumBound(bytes: seq<Byte>)
    ensures Sum(bytes) <= 255 * |bytes|
  {
    if bytes != [] { SumBound(bytes[..|bytes| - 1]); }
  }

  datatype Around = Around(front: seq<Byte>, back: seq<Byte>)

  /** The header bytes before and after the checksum field. */
  function HeaderAround(f: Fields): Option<Around> {
    match SplitName(f.name)
    case None => None
    case Some(fields) =>
      var name, prefix := TextField(fields.name, 100), TextField(fields.prefix, 155);
      var mode, size, zero, time := OctalField(f.mode, 8), OctalField(f.size, 12), OctalField(0, 8), OctalField(0, 12);
      if name.None? || prefix.None? || mode.None? || size.None? || zero.None? || time.None? then None
      else Some(Around(
        name.value + mode.value + zero.value + zero.value + size.value + time.value, BackOf(f.kind, prefix.value)))
  }

  /** Type, link name, magic and version, owner and group names, device numbers, prefix and the unused tail. */
  function BackOf(kind: Byte, prefix: seq<Byte>): seq<Byte> {
    [kind] + Zeros(100) + MAGIC + Zeros(32) + Zeros(32) + Zeros(8) + Zeros(8) + prefix + Zeros(12)
  }

  function ChecksumField(sum: nat): seq<Byte> {
    OctalText(sum, 6) + [0, 32]
  }

  function Header(f: Fields): Option<seq<Byte>> {
    match HeaderAround(f)
    case None => None
    case Some(a) => Some(a.front + ChecksumField(Sum(a.front + SPACES + a.back)) + a.back)
  }

  lemma AroundSizes(f: Fields)
    requires HeaderAround(f).Some?
    ensures |HeaderAround(f).value.front| == CHECKSUM_OFFSET
    ensures |HeaderAround(f).value.back| == HEADER_BYTES - CHECKSUM_OFFSET - CHECKSUM_BYTES
  {
    OctalFieldFits(f.mode, 8);
    OctalFieldFits(f.size, 12);
    OctalFieldFits(0, 8);
    OctalFieldFits(0, 12);
  }

  lemma Pow8Six()
    ensures Pow8(6) == 262_144
  {
    assert Pow8(3) == 512;
    assert Pow8(6) == 8 * 8 * 8 * Pow8(3);
  }

  /** The checksum of any 512 bytes has at most six octal digits, so its field is always eight bytes. */
  lemma ChecksumFits(bytes: seq<Byte>)
    requires |bytes| == HEADER_BYTES
    ensures |ChecksumField(Sum(bytes))| == CHECKSUM_BYTES
    ensures OctalValue(ChecksumField(Sum(bytes))[..6]) == Sum(bytes)
  {
    SumBound(bytes);
    Pow8Six();
    OctalFits(Sum(bytes), 6);
    OctalReadsBack(Sum(bytes), 6);
    assert ChecksumField(Sum(bytes))[..6] == OctalText(Sum(bytes), 6);
  }

  method Put(a: array<Byte>, at: nat, value: seq<Byte>)
    requires at + |value| <= a.Length
    modifies a
    ensures a[..] == old(a[..at]) + value + old(a[at + |value|..])
  {
    for i := 0 to |value|
      invariant a[..at] == old(a[..at])
      invariant a[at..at + i] == value[..i]
      invariant a[at + |value|..] == old(a[at + |value|..])
    {
      a[at + i] := value[i];
      assert a[at..at + i + 1] == a[at..at + i] + [value[i]];
      assert value[..i + 1] == value[..i] + [value[i]];
    }
    assert a[..] == a[..at] + a[at..at + |value|] + a[at + |value|..];
  }

  /** Extends the stretch already written from `start`, leaving what is before it. */
  method PutNext(a: array<Byte>, start: nat, ghost done: seq<Byte>, at: nat, value: seq<Byte>)
    requires at == start + |done| && at + |value| <= a.Length && a[start..at] == done
    modifies a
    ensures a[start..at + |value|] == done + value && a[..start] == old(a[..start])
  {
    Put(a, at, value);
    var end := at + |value|;
    ghost var whole := old(a[..at]) + value + old(a[end..]);
    assert whole[..at] == old(a[..at]) && whole[at..end] == value;
    assert a[start..end] == a[start..at] + a[at..end];
    assert a[..at] == whole[..at] && a[at..end] == whole[at..end];
    assert a[start..at] == a[..at][start..] && old(a[start..at]) == old(a[..at])[start..];
    assert a[..start] == a[..at][..start] && old(a[..start]) == old(a[..at])[..start];
  }

  method SumOf(a: array<Byte>) returns (sum: nat)
    ensures sum == Sum(a[..])
  {
    sum := 0;
    assert a[..0] == [];
    for i := 0 to a.Length
      invariant sum == Sum(a[..i])
    {
      assert a[..i + 1][..i] == a[..i];
      sum := sum + a[i];
    }
    assert a[..a.Length] == a[..];
  }

  lemma ZeroFieldsFit()
    ensures OctalField(0, 8).Some? && OctalField(0, 12).Some?
  {
  }

  method FillFront(a: array<Byte>, name: seq<Byte>, mode: seq<Byte>, zero: seq<Byte>, size: seq<Byte>, time: seq<Byte>)
    requires a.Length == HEADER_BYTES && |name| == 100 && |mode| == |zero| == 8 && |size| == |time| == 12
    modifies a
    ensures a[..CHECKSUM_OFFSET] == name + mode + zero + zero + size + time
  {
    PutNext(a, 0, [], 0, name);
    assert [] + name == name;
    PutNext(a, 0, name, 100, mode);
    PutNext(a, 0, name + mode, 108, zero);
    PutNext(a, 0, name + mode + zero, 116, zero);
    PutNext(a, 0, name + mode + zero + zero, 124, size);
    PutNext(a, 0, name + mode + zero + zero + size, 136, time);
  }

  method FillBack(a: array<Byte>, kind: Byte, prefix: seq<Byte>)
    requires a.Length == HEADER_BYTES && |prefix| == PREFIX_BYTES
    modifies a
    ensures a[..156] == old(a[..156]) && a[156..] == BackOf(kind, prefix)
  {
    PutNext(a, 156, [], 156, [kind]);
    assert [] + [kind] == [kind];
    PutNext(a, 156, [kind], 157, Zeros(100));
    PutNext(a, 156, [kind] + Zeros(100), 257, MAGIC);
    PutNext(a, 156, [kind] + Zeros(100) + MAGIC, 265, Zeros(32));
    PutNext(a, 156, [kind] + Zeros(100) + MAGIC + Zeros(32), 297, Zeros(32));
    PutNext(a, 156, [kind] + Zeros(100) + MAGIC + Zeros(32) + Zeros(32), 329, Zeros(8));
    PutNext(a, 156, [kind] + Zeros(100) + MAGIC + Zeros(32) + Zeros(32) + Zeros(8), 337, Zeros(8));
    PutNext(a, 156, [kind] + Zeros(100) + MAGIC + Zeros(32) + Zeros(32) + Zeros(8) + Zeros(8), 345, prefix);
    PutNext(a, 156, [kind] + Zeros(100) + MAGIC + Zeros(32) + Zeros(32) + Zeros(8) + Zeros(8) + prefix, 500, Zeros(12));
    assert a[156..] == a[156..512];
  }

  /** The header as the program builds it: fields written in place into 512 zero bytes, then the checksum. */
  method BuildHeader(f: Fields) returns (r: Option<seq<Byte>>)
    ensures r == Header(f)
  {
    hide OctalField, TextField, OctalText, FirstSplit, BackOf;
    var fields := SplitName(f.name);
    if fields.None? {
      return None;
    }
    var name, prefix := TextField(fields.value.name, 100), TextField(fields.value.prefix, 155);
    var mode, size := OctalField(f.mode, 8), OctalField(f.size, 12);
    var zero, time := OctalField(0, 8), OctalField(0, 12);
    ZeroFieldsFit();
    if name.None? || prefix.None? || mode.None? || size.None? {
      return None;
    }
    OctalFieldFits(f.mode, 8);
    OctalFieldFits(f.size, 12);
    OctalFieldFits(0, 8);
    OctalFieldFits(0, 12);
    ghost var around := HeaderAround(f).value;
    AroundSizes(f);
    var a := new Byte[HEADER_BYTES](_ => 0);
    FillFront(a, name.value, mode.value, zero.value, size.value, time.value);
    PutNext(a, CHECKSUM_OFFSET, [], CHECKSUM_OFFSET, SPACES);
    FillBack(a, f.kind, prefix.value);
    Checksum(a, around.front, around.back);
    r := Some(a[..]);
  }

  /** The last step: the byte sum with spaces in the checksum field, written over them. */
  method Checksum(a: array<Byte>, ghost front: seq<Byte>, ghost back: seq<Byte>)
    requires a.Length == HEADER_BYTES && |front| == CHECKSUM_OFFSET && |back| == HEADER_BYTES - 156
    requires a[..148] == front && a[148..156] == SPACES && a[156..] == back
    modifies a
    ensures a[..] == front + ChecksumField(Sum(front + SPACES + back)) + back
  {
    assert a[..] == a[..148] + a[148..156] + a[156..];
    var sum := SumOf(a);
    ChecksumFits(a[..]);
    Put(a, CHECKSUM_OFFSET, ChecksumField(sum));
  }

  // ---- decoding -------------------------------------------------------------------------------

  /** What a USTAR reader gets from 512 bytes whose magic and checksum are right. */
  function Decode(h: seq<Byte>): Option<Fields> {
    if |h| != HEADER_BYTES || h[257..265] != MAGIC then None
    else if OctalValue(h[148..154]) != Sum(h[..148] + SPACES + h[156..]) then None
    else
      Some(Fields(Rejoin(NameFields(Text(h[..100]), Text(h[345..500]))), OctalValue(h[124..135]),
                  OctalValue(h[100..107]), h[156]))
  }

  lemma Cut(a: seq<Byte>, b: seq<Byte>, c: seq<Byte>)
    ensures (a + b + c)[|a|..|a| + |b|] == b && (a + b + c)[..|a|] == a && (a + b + c)[|a| + |b|..] == c
  {
  }

  lemma FrontSlices(name: seq<Byte>, mode: seq<Byte>, zero: seq<Byte>, size: seq<Byte>, time: seq<Byte>)
    requires |name| == 100 && |mode| == |zero| == 8 && |size| == |time| == 12
    ensures
      var h := name + mode + zero + zero + size + time;
      |h| == 148 && h[..100] == name && h[100..107] == mode[..7] && h[124..135] == size[..11]
  {
  }

  lemma BackSlices(kind: Byte, prefix: seq<Byte>)
    requires |prefix| == PREFIX_BYTES
    ensures
      var back := BackOf(kind, prefix);
      |back| == HEADER_BYTES - 156 && back[0] == kind && back[101..109] == MAGIC && back[189..344] == prefix
  {
    assert |MAGIC| == 8;
  }

  /** Slices of the whole that lie in its first, second or third part. */
  lemma Within(a: seq<Byte>, b: seq<Byte>, c: seq<Byte>, lo: nat, hi: nat)
    requires lo <= hi
    ensures hi <= |a| ==> (a + b + c)[lo..hi] == a[lo..hi]
    ensures |a| <= lo && hi <= |a| + |b| ==> (a + b + c)[lo..hi] == b[lo - |a|..hi - |a|]
    ensures |a| + |b| <= lo && hi <= |a + b + c| ==> (a + b + c)[lo..hi] == c[lo - |a| - |b|..hi - |a| - |b|]
  {
  }

  lemma HeaderUnfolds(f: Fields)
    requires HeaderAround(f).Some?
    ensures
      var a := HeaderAround(f).value;
      Header(f) == Some(a.front + ChecksumField(Sum(a.front + SPACES + a.back)) + a.back)
  {
  }

  /** Every stretch of a header that a reader looks at. */
  ghost predicate LaidOut(h: seq<Byte>, f: Fields, fields: NameFields) {
    && |h| == HEADER_BYTES && h[257..265] == MAGIC && h[156] == f.kind
    && Some(h[..100]) == TextField(fields.name, 100) && Some(h[345..500]) == TextField(fields.prefix, 155)
    && OctalValue(h[100..107]) == f.mode && OctalValue(h[124..135]) == f.size
    && OctalValue(h[148..154]) == Sum(h[..148] + SPACES + h[156..])
  }

  lemma FrontHolds(f: Fields)
    requires HeaderAround(f).Some?
    ensures
      var front, fields := HeaderAround(f).value.front, SplitName(f.name).value;
      && |front| == CHECKSUM_OFFSET && Some(front[..100]) == TextField(fields.name, 100)
      && OctalValue(front[100..107]) == f.mode && OctalValue(front[124..135]) == f.size
  {
    hide OctalField, TextField, OctalText, OctalValue, FirstSplit, BackOf;
    OctalFieldFits(f.mode, 8);
    OctalFieldFits(f.size, 12);
    OctalFieldFits(0, 8);
    OctalFieldFits(0, 12);
    FrontSlices(TextField(SplitName(f.name).value.name, 100).value, OctalField(f.mode, 8).value, OctalField(0, 8).value,
                OctalField(f.size, 12).value, OctalField(0, 12).value);
  }

  lemma BackHolds(f: Fields)
    requires HeaderAround(f).Some?
    ensures
      var back, fields := HeaderAround(f).value.back, SplitName(f.name).value;
      && |back| == HEADER_BYTES - 156 && back[0] == f.kind && back[101..109] == MAGIC
      && Some(back[189..344]) == TextField(fields.prefix, 155)
  {
    hide OctalField, TextField, FirstSplit, BackOf;
    BackSlices(f.kind, TextField(SplitName(f.name).value.prefix, 155).value);
  }

  lemma HeaderLayout(f: Fields)
    requires Header(f).Some?
    ensures LaidOut(Header(f).value, f, SplitName(f.name).value)
  {
    hide OctalValue, TextField, Sum, FirstSplit, HeaderAround, Header, ChecksumField;
    assert HeaderAround(f).Some? by { HeaderNeedsAround(f); }
    var a := HeaderAround(f).value;
    FrontHolds(f);
    BackHolds(f);
    var field := ChecksumField(Sum(a.front + SPACES + a.back));
    ChecksumFits(a.front + SPACES + a.back);
    HeaderUnfolds(f);
    var h := a.front + field + a.back;
    Within(a.front, field, a.back, 0, 100);
    Within(a.front, field, a.back, 100, 107);
    Within(a.front, field, a.back, 124, 135);
    Within(a.front, field, a.back, 148, 154);
    Within(a.front, field, a.back, 257, 265);
    Within(a.front, field, a.back, 345, 500);
    Cut(a.front, field, a.back);
  }

  lemma HeaderNeedsAround(f: Fields)
    requires Header(f).Some?
    ensures HeaderAround(f).Some? && SplitName(f.name).Some?
  {
  }

  // ---- the header, byte by byte ---------------------------------------------------------------

  lemma {:induction false} SumOfBoth(a: seq<Byte>, b: seq<Byte>)
    ensures Sum(a + b) == Sum(a) + Sum(b)
  {
    if b == [] {
      assert a + b == a;
    } else {
      SumOfBoth(a, b[..|b| - 1]);
      assert (a + b)[..|a + b| - 1] == a + b[..|b| - 1];
    }
  }

  predicate AllZero(bytes: seq<Byte>) {
    forall i :: 0 <= i < |bytes| ==> bytes[i] == 0
  }

  lemma ZeroFields()
    ensures OctalField(0, 8) == Some([48, 48, 48, 48, 48, 48, 48, 0])
    ensures OctalField(0, 12) == Some([48, 48, 48, 48, 48, 48, 48, 48, 48, 48, 48, 0])
  {
    ZeroDigits(7);
    ZeroDigits(11);
    ZeroFieldsFit();
    hide OctalText;
    assert OctalText(0, 7) + [0] == [48, 48, 48, 48, 48, 48, 48, 0];
    assert OctalText(0, 11) + [0] == [48, 48, 48, 48, 48, 48, 48, 48, 48, 48, 48, 0];
  }

  lemma {:induction false} ZeroDigits(width: nat)
    requires width >= 1
    ensures |OctalText(0, width)| == width && forall i :: 0 <= i < width ==> OctalText(0, width)[i] == 48
  {
    if width > 1 { ZeroDigits(width - 1); }
  }

  lemma EightSpaces(front: seq<Byte>, back: seq<Byte>)
    ensures Sum(front + [32, 32, 32, 32, 32, 32, 32, 32] + back) == Sum(front) + 8 * 32 + Sum(back)
  {
    var spaces: seq<Byte> := [32, 32, 32, 32, 32, 32, 32, 32];
    SumOfBoth(front + spaces, back);
    SumOfBoth(front, spaces);
    SumOfBoth([32, 32, 32, 32], [32, 32, 32, 32]);
    SumOfBoth([32, 32], [32, 32]);
    SumOfBoth([32], [32]);
    assert [32] + [32] == [32, 32] && [32, 32] + [32, 32] == [32, 32, 32, 32];
    assert [32, 32, 32, 32] + [32, 32, 32, 32] == spaces;
    assert Sum([32]) == 32;
  }

  /** The bytes before the checksum: name, mode, owner, group, size and time, the numbers closed by a NUL. */
  lemma FrontIsStandard(f: Fields)
    requires HeaderAround(f).Some?
    ensures
      var front := HeaderAround(f).value.front;
      && |front| == 148 && front[107] == 0 && front[135] == 0
      && front[108..124] == [48, 48, 48, 48, 48, 48, 48, 0, 48, 48, 48, 48, 48, 48, 48, 0]
      && front[136..148] == [48, 48, 48, 48, 48, 48, 48, 48, 48, 48, 48, 0]
  {
    OctalFieldFits(f.mode, 8);
    OctalFieldFits(f.size, 12);
    ZeroFields();
    ClosedByNul(f.mode, 8);
    ClosedByNul(f.size, 12);
    hide OctalField, TextField, OctalText, OctalValue, FirstSplit, BackOf;
    FrontParts(TextField(SplitName(f.name).value.name, 100).value, OctalField(f.mode, 8).value,
               OctalField(0, 8).value, OctalField(f.size, 12).value, OctalField(0, 12).value);
  }

  lemma ClosedByNul(value: int, width: nat)
    requires width >= 2 && OctalField(value, width).Some?
    ensures |OctalField(value, width).value| == width && OctalField(value, width).value[width - 1] == 0
  {
    OctalFieldFits(value, width);
  }

  lemma FrontParts(name: seq<Byte>, mode: seq<Byte>, zero: seq<Byte>, size: seq<Byte>, time: seq<Byte>)
    requires |name| == 100 && |mode| == |zero| == 8 && |size| == |time| == 12
    ensures
      var h := name + mode + zero + zero + size + time;
      |h| == 148 && h[107] == mode[7] && h[135] == size[11] && h[108..124] == zero + zero && h[136..148] == time
  {
  }

  /** The bytes after the checksum: type, link, magic and version, owner and group names, devices, prefix and tail. */
  lemma BackIsStandard(kind: Byte, prefix: seq<Byte>)
    requires |prefix| == PREFIX_BYTES
    ensures
      var back := BackOf(kind, prefix);
      && |back| == 356 && back[0] == kind && AllZero(back[1..101])
      && back[101..109] == [117, 115, 116, 97, 114, 0, 48, 48]
      && AllZero(back[109..189]) && back[189..344] == prefix && AllZero(back[344..356])
  {
  }

  /** A header byte by byte. The number in its checksum field is the sum of all other bytes and of eight spaces. */
  lemma HeaderIsStandard(f: Fields)
    requires Header(f).Some?
    ensures
      var h := Header(f).value;
      && |h| == 512
      && OctalValue(h[148..154]) == Sum(h[..148]) + 8 * 32 + Sum(h[156..]) && h[154..156] == [0, 32]
      && h[257..265] == [117, 115, 116, 97, 114, 0, 48, 48]
      && h[107] == 0 && h[135] == 0
      && h[108..124] == [48, 48, 48, 48, 48, 48, 48, 0, 48, 48, 48, 48, 48, 48, 48, 0]
      && h[136..148] == [48, 48, 48, 48, 48, 48, 48, 48, 48, 48, 48, 0]
      && h[156] == f.kind && AllZero(h[157..257]) && AllZero(h[265..345]) && AllZero(h[500..512])
  {
    hide OctalValue, TextField, Sum, FirstSplit, Header, BackOf, OctalField, OctalText;
    HeaderNeedsAround(f);
    var a := HeaderAround(f).value;
    FrontIsStandard(f);
    BackIsStandard(f.kind, TextField(SplitName(f.name).value.prefix, 155).value);
    AroundSizes(f);
    ChecksumFits(a.front + SPACES + a.back);
    EightSpaces(a.front, a.back);
    HeaderUnfolds(f);
    var field := ChecksumField(Sum(a.front + SPACES + a.back));
    ChecksumEnds(Sum(a.front + SPACES + a.back));
    hide HeaderAround, ChecksumField, AllZero;
    HeaderBytes(a.front, field, a.back);
  }

  lemma ChecksumEnds(sum: nat)
    requires |ChecksumField(sum)| == 8
    ensures ChecksumField(sum)[6..] == [0, 32]
  {
    assert |OctalText(sum, 6)| == 6;
  }

  /** Where the parts of a header lie in the whole. */
  lemma HeaderBytes(front: seq<Byte>, field: seq<Byte>, back: seq<Byte>)
    requires |front| == 148 && |field| == 8 && |back| == 356
    ensures
      var h := front + field + back;
      && |h| == 512 && h[..148] == front && h[148..154] == field[..6] && h[154..156] == field[6..] && h[156..] == back
      && h[107] == front[107] && h[135] == front[135] && h[108..124] == front[108..124]
         && h[136..148] == front[136..148]
      && h[156] == back[0] && h[157..257] == back[1..101] && h[257..265] == back[101..109]
      && h[265..345] == back[109..189] && h[345..500] == back[189..344] && h[500..512] == back[344..356]
  {
    Cut(front, field, back);
    Within(front, field, back, 108, 124);
    Within(front, field, back, 136, 148);
    Within(front, field, back, 148, 154);
    Within(front, field, back, 154, 156);
    Within(front, field, back, 157, 257);
    Within(front, field, back, 257, 265);
    Within(front, field, back, 265, 345);
    Within(front, field, back, 345, 500);
    Within(front, field, back, 500, 512);
  }

  lemma NulInHalves(name: string, f: NameFields)
    requires name == Rejoin(f)
    ensures HasNul(name) <==> HasNul(f.prefix) || HasNul(f.name)
  {
    if f.prefix != "" {
      var n := |f.prefix|;
      assert forall i :: 0 <= i < n ==> name[i] == f.prefix[i];
      assert name[n] == '/';
      assert forall i :: 0 <= i < |f.name| ==> f.name[i] == name[n + 1 + i];
      assert forall i :: n < i < |name| ==> name[i] == f.name[i - n - 1];
    }
  }

  /** Decoding returns the name, size, mode and type that were encoded, exactly for the names without NUL that are
      not 101 bytes after a leading slash. */
  lemma HeaderReadsBack(f: Fields)
    requires Header(f).Some?
    ensures |Header(f).value| == HEADER_BYTES && Decode(Header(f).value).Some?
    ensures Decode(Header(f).value) == Some(f) <==> !HasNul(f.name) && !(|f.name| == 101 && f.name[0] == '/')
  {
    hide Header, SplitName, Rejoin, LaidOut, Decode, Text, TextField;
    HeaderNeedsAround(f);
    HeaderLayout(f);
    var fields := SplitName(f.name).value;
    SplitRejoins(f.name);
    FieldsAreAscii(f.name);
    DecodeLaidOut(Header(f).value, f, fields);
    TextOfField(fields.name, 100 - |fields.name|);
    TextOfField(fields.prefix, 155 - |fields.prefix|);
    FieldText(fields.name, 100);
    FieldText(fields.prefix, 155);
    DecodedName(f, fields, Text(TextField(fields.name, 100).value), Text(TextField(fields.prefix, 155).value));
  }

  lemma FieldsAreAscii(name: string)
    requires SplitName(name).Some?
    ensures IsAscii(SplitName(name).value.name) && IsAscii(SplitName(name).value.prefix)
  {
    if |name| > NAME_BYTES {
      JoinSplit(name);
      FirstSplitCuts(Split(name), 1);
      var f := SplitName(name).value;
      assert forall i :: 0 <= i < |f.prefix| ==> f.prefix[i] == name[i];
      assert forall i :: 0 <= i < |f.name| ==> f.name[i] == name[|f.prefix| + 1 + i];
    }
  }

  lemma FieldText(s: string, width: nat)
    requires IsAscii(s) && |s| <= width
    ensures TextField(s, width) == Some(Ascii(s) + Zeros(width - |s|))
  {
  }

  lemma DecodeLaidOut(h: seq<Byte>, f: Fields, fields: NameFields)
    requires LaidOut(h, f, fields)
    ensures TextField(fields.name, 100).Some? && TextField(fields.prefix, 155).Some? && |h| == HEADER_BYTES
    ensures Decode(h) == Some(Fields(
              Rejoin(NameFields(Text(TextField(fields.name, 100).value), Text(TextField(fields.prefix, 155).value))),
              f.size, f.mode, f.kind))
  {
    hide Rejoin, Text, TextField, OctalValue, Sum;
  }

  /** The two texts read rejoin to the name just when neither was cut short and no slash was lost. */
  lemma DecodedName(f: Fields, fields: NameFields, name: string, prefix: string)
    requires SplitName(f.name) == Some(fields)
    requires Rejoin(fields) == f.name <==> !(|f.name| == 101 && f.name[0] == '/')
    requires if HasNul(fields.name) then |name| < |fields.name| else name == fields.name
    requires if HasNul(fields.prefix) then |prefix| < |fields.prefix| else prefix == fields.prefix
    ensures Rejoin(NameFields(name, prefix)) == f.name <==> !HasNul(f.name) && !(|f.name| == 101 && f.name[0] == '/')
  {
    if Rejoin(fields) == f.name {
      NulInHalves(f.name, fields);
    } else {
      assert |fields.name| == 100 && fields.prefix == "" by { LeadingSlash(f.name); }
      assert |Rejoin(NameFields(name, prefix))| <= 100;
    }
  }

  /** Different entries have different headers. */
  lemma HeaderIsInjective(f: Fields, g: Fields)
    requires Header(f).Some? && Header(f) == Header(g)
    requires !HasNul(f.name) && !(|f.name| == 101 && f.name[0] == '/')
    requires !HasNul(g.name) && !(|g.name| == 101 && g.name[0] == '/')
    ensures f == g
  {
    HeaderReadsBack(f);
    HeaderReadsBack(g);
  }

  /** Two entries that differ only in size have different headers, whatever their name. */
  lemma HeaderFixesSize(f: Fields, size: int)
    requires Header(f).Some? && Header(f.(size := size)) == Header(f)
    ensures size == f.size
  {
    hide Header, SplitName, TextField, OctalValue, Sum;
    HeaderLayout(f);
    HeaderLayout(f.(size := size));
  }
}

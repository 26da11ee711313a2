/** Acceptance of an expanded release archive: what the inspector pins and what it leaves to the tar reader. */
module TarInspect {
  import opened Prelude
  import opened Sequences
  import opened Slashes
  import opened Ustar

  const BLOCK := 512
  const RECORD := 10_240
  const MAX_ARCHIVE_ENTRIES := 16
  const MAX_ARCHIVE_CONTENT_BYTES := 512 * 1024 * 1024
  const MAX_BINARY_BYTES := 128 * 1024 * 1024
  const DIRECTORY: Byte := 53
  const REGULAR: Byte := 48
  const ENTRIES := 5

  /** What the tar reader claims about one member. None of it is trusted. */
  datatype Member = Member(
    name: string, kind: Byte, mode: int, uid: int, gid: int, uname: string, gname: string, mtime: int,
    linkname: string, devmajor: int, devminor: int, hasPaxHeaders: bool, offset: int, offsetData: int, size: int)

  predicate IsDirectory(m: Member) {
    m.kind == DIRECTORY
  }

  /** The reader's four regular types: regular, old regular, contiguous and sparse. */
  predicate IsRegular(m: Member) {
    m.kind == REGULAR || m.kind == 0 || m.kind == 55 || m.kind == 83
  }

  // ---- the release layout ---------------------------------------------------------------------

  /** The archive's directory name, built from a checked version and a known target. */
  predicate ReleasePrefix(p: string) {
    && |p| >= 10 && p[..10] == "calcifer-v"
    && forall i :: 0 <= i < |p| ==> '0' <= p[i] <= '9' || 'a' <= p[i] <= 'z' || 'A' <= p[i] <= 'Z' || p[i] == '.'
                                    || p[i] == '-' || p[i] == '_'
  }

  function Layout(prefix: string): (r: seq<string>)
    ensures |r| == ENTRIES
  {
    [prefix, prefix + "/calcifer", prefix + "/LICENSE", prefix + "/README.md", prefix + "/SECURITY.md"]
  }

  /** The header of the entry at an index of the layout. */
  function EntryFields(prefix: string, i: nat, size: int): Fields
    requires i < ENTRIES
  {
    Fields(if i == 0 then prefix + "/" else Layout(prefix)[i], size, if i < 2 then 0x1ED else 0x1A4,
           if i == 0 then DIRECTORY else REGULAR)
  }

  function Padded(n: nat): (r: nat)
    ensures n <= r < n + BLOCK && r % BLOCK == 0
  {
    (n + BLOCK - 1) / BLOCK * BLOCK
  }

  function RecordEnd(n: nat): (r: nat)
    ensures n <= r < n + RECORD && r % RECORD == 0
  {
    (n + RECORD - 1) / RECORD * RECORD
  }

  predicate Encodable(prefix: string, i: nat, size: int)
    requires i < ENTRIES
  {
    Header(EntryFields(prefix, i, size)).Some?
  }

  predicate AllEncodable(prefix: string, payloads: seq<seq<Byte>>)
    requires |payloads| <= ENTRIES
  {
    forall i :: 0 <= i < |payloads| ==> Encodable(prefix, i, |payloads[i]|)
  }

  /** Header, payload and zero padding to the block. */
  function EntryBytes(prefix: string, i: nat, payload: seq<Byte>): seq<Byte>
    requires i < ENTRIES && Encodable(prefix, i, |payload|)
  {
    Header(EntryFields(prefix, i, |payload|)).value + payload + Zeros(Padded(|payload|) - |payload|)
  }

  function Serialize(prefix: string, payloads: seq<seq<Byte>>): seq<Byte>
    requires |payloads| <= ENTRIES && AllEncodable(prefix, payloads)
  {
    if payloads == [] then []
    else
      var n := |payloads| - 1;
      Serialize(prefix, payloads[..n]) + EntryBytes(prefix, n, payloads[n])
  }

  /** The one stream that carries these payloads: the entries in order, then zeros to the end of the record that
      holds two more blocks. */
  function CanonicalStream(prefix: string, payloads: seq<seq<Byte>>): seq<Byte>
    requires |payloads| == ENTRIES && AllEncodable(prefix, payloads)
  {
    var body := Serialize(prefix, payloads);
    body + Zeros(RecordEnd(|body| + 2 * BLOCK) - |body|)
  }

  ghost predicate Canonical(stream: seq<Byte>, prefix: string) {
    exists payloads: seq<seq<Byte>> :: CarriesPayloads(stream, prefix, payloads)
  }

  ghost predicate CarriesPayloads(stream: seq<Byte>, prefix: string, payloads: seq<seq<Byte>>) {
    && |payloads| == ENTRIES && payloads[0] == [] && AllEncodable(prefix, payloads)
    && stream == CanonicalStream(prefix, payloads)
  }

  // ---- what acceptance means ------------------------------------------------------------------

  /** Where the entry at an index begins, by the sizes of those before it. */
  function OffsetOf(members: seq<Member>): nat {
    if members == [] then 0
    else OffsetOf(members[..|members| - 1]) + BLOCK + Padded(SizeOf(members[|members| - 1]))
  }

  function SizeOf(m: Member): nat {
    if m.size < 0 then 0 else m.size
  }

  /** The reader claims nothing beyond what the layout says of the entry at this index and offset. */
  predicate PlainMember(m: Member, prefix: string, i: nat, offset: nat)
    requires i < ENTRIES
  {
    && m.name == Layout(prefix)[i]
    && m.kind == EntryFields(prefix, i, m.size).kind && m.mode == EntryFields(prefix, i, m.size).mode
    && m.uid == 0 && m.gid == 0 && m.uname == "" && m.gname == "" && m.mtime == 0 && m.linkname == ""
    && m.devmajor == 0 && m.devminor == 0 && !m.hasPaxHeaders
    && m.offset == offset && m.offsetData == offset + BLOCK && m.size >= 0 && (i == 0 ==> m.size == 0)
  }

  /** The bytes at the offset are the canonical header for that size, a payload and zero padding. */
  predicate HoldsEntry(stream: seq<Byte>, prefix: string, i: nat, offset: nat, size: nat)
    requires i < ENTRIES
  {
    && Encodable(prefix, i, size)
    && offset + BLOCK + Padded(size) <= |stream|
    && stream[offset..offset + BLOCK] == Header(EntryFields(prefix, i, size)).value
    && AllZero(stream[offset + BLOCK + size..offset + BLOCK + Padded(size)])
  }

  function ContentBytes(members: seq<Member>): int {
    if members == [] then 0
    else
      var n := |members| - 1;
      ContentBytes(members[..n]) + if n == 0 then 0 else members[n].size
  }

  ghost predicate AcceptsMembers(stream: seq<Byte>, prefix: string, members: seq<Member>)
  {
    && |members| <= ENTRIES
    && forall i :: 0 <= i < |members| ==> AcceptsMember(stream, prefix, members[i], i, OffsetOf(members[..i]))
  }

  predicate AcceptsMember(stream: seq<Byte>, prefix: string, m: Member, i: nat, offset: nat)
    requires i < ENTRIES
  {
    && PlainMember(m, prefix, i, offset) && HoldsEntry(stream, prefix, i, offset, m.size)
    && (i == 1 ==> m.size <= MAX_BINARY_BYTES)
  }

  /** The stream ends with the record that holds two blocks after the reader's logical end, all zero from there. */
  predicate AcceptsEnd(stream: seq<Byte>, logicalEnd: nat) {
    && |stream| == RecordEnd(logicalEnd + 2 * BLOCK)
    && logicalEnd <= |stream| && AllZero(stream[logicalEnd..])
  }

  ghost predicate Accepts(stream: seq<Byte>, prefix: string, members: seq<Member>, logicalEnd: nat) {
    && |members| == ENTRIES && AcceptsMembers(stream, prefix, members)
    && ContentBytes(members) <= MAX_ARCHIVE_CONTENT_BYTES
    && AcceptsEnd(stream, logicalEnd)
  }

  // ---- acceptance pins the bytes --------------------------------------------------------------

  /** The payload bytes of a member, read from the stream. */
  function Payload(stream: seq<Byte>, m: Member): seq<Byte> {
    if 0 <= m.offsetData <= m.offsetData + m.size <= |stream| then stream[m.offsetData..m.offsetData + m.size] else []
  }

  function Payloads(stream: seq<Byte>, members: seq<Member>): (r: seq<seq<Byte>>)
    ensures |r| == |members|
  {
    seq(|members|, i requires 0 <= i < |members| => Payload(stream, members[i]))
  }

  lemma ZeroBytes(bytes: seq<Byte>)
    requires AllZero(bytes)
    ensures bytes == Zeros(|bytes|)
  {
  }

  lemma ThreeParts(stream: seq<Byte>, a: nat, b: nat, c: nat, d: nat)
    requires a <= b <= c <= d <= |stream|
    ensures stream[a..d] == stream[a..b] + stream[b..c] + stream[c..d]
  {
  }

  /** One accepted member extends the serialization by exactly its entry. */
  lemma EntryAtOffset(stream: seq<Byte>, prefix: string, i: nat, offset: nat, payload: seq<Byte>)
    requires i < ENTRIES && HoldsEntry(stream, prefix, i, offset, |payload|)
    requires payload == stream[offset + BLOCK..offset + BLOCK + |payload|]
    ensures stream[offset..offset + BLOCK + Padded(|payload|)] == EntryBytes(prefix, i, payload)
  {
    hide EntryFields, Header, AllZero;
    var start, end := offset + BLOCK + |payload|, offset + BLOCK + Padded(|payload|);
    ZeroBytes(stream[start..end]);
    assert |stream[start..end]| == Padded(|payload|) - |payload|;
    ThreeParts(stream, offset, offset + BLOCK, start, end);
    assert EntryBytes(prefix, i, payload)
        == Header(EntryFields(prefix, i, |payload|)).value + payload + Zeros(Padded(|payload|) - |payload|);
  }

  lemma AcceptedEntry(stream: seq<Byte>, prefix: string, m: Member, i: nat, offset: nat)
    requires i < ENTRIES && AcceptsMember(stream, prefix, m, i, offset)
    ensures
      var end := offset + BLOCK + Padded(SizeOf(m));
      && |Payload(stream, m)| == m.size && end <= |stream| && Encodable(prefix, i, |Payload(stream, m)|)
      && stream[offset..end] == EntryBytes(prefix, i, Payload(stream, m))
  {
    hide EntryFields, Layout, Header, EntryBytes, AllZero, Padded;
    EntryAtOffset(stream, prefix, i, offset, Payload(stream, m));
  }

  lemma Extend(stream: seq<Byte>, mid: nat, end: nat, a: seq<Byte>, b: seq<Byte>)
    requires mid <= end <= |stream| && stream[..mid] == a && stream[mid..end] == b
    ensures stream[..end] == a + b
  {
  }

  lemma PrefixAccepted(stream: seq<Byte>, prefix: string, members: seq<Member>)
    requires AcceptsMembers(stream, prefix, members) && members != []
    ensures
      var n := |members| - 1;
      n < ENTRIES && AcceptsMembers(stream, prefix, members[..n])
      && AcceptsMember(stream, prefix, members[n], n, OffsetOf(members[..n]))
  {
    hide AcceptsMember, OffsetOf;
    var n := |members| - 1;
    forall i | 0 <= i < n ensures AcceptsMember(stream, prefix, members[..n][i], i, OffsetOf(members[..n][..i])) {
      assert members[..n][..i] == members[..i];
    }
  }

  /** The stretch before the reader's last member is the serialization of the payloads found in the bytes. */
  lemma {:induction false} MembersAreSerialized(stream: seq<Byte>, prefix: string, members: seq<Member>)
    requires AcceptsMembers(stream, prefix, members)
    ensures AllEncodable(prefix, Payloads(stream, members))
    ensures forall i :: 0 <= i < |members| ==> |Payloads(stream, members)[i]| == members[i].size
    ensures OffsetOf(members) <= |stream|
    ensures stream[..OffsetOf(members)] == Serialize(prefix, Payloads(stream, members))
  {
    hide EntryBytes, AcceptsMembers, AcceptsMember, Encodable, Payload, Padded;
    if members != [] {
      var n := |members| - 1;
      var front, m := members[..n], members[n];
      var ps := Payloads(stream, members);
      PrefixAccepted(stream, prefix, members);
      MembersAreSerialized(stream, prefix, front);
      AcceptedEntry(stream, prefix, m, n, OffsetOf(front));
      assert ps[..n] == Payloads(stream, front) && ps[n] == Payload(stream, m);
      assert forall i :: 0 <= i < n ==> ps[i] == Payloads(stream, front)[i];
      Extend(stream, OffsetOf(front), OffsetOf(members), Serialize(prefix, ps[..n]), EntryBytes(prefix, n, ps[n]));
    }
  }

  lemma SameStart(a: seq<Byte>, s: seq<Byte>, b: seq<Byte>, t: seq<Byte>)
    requires a + s == b + t && |a| == |b|
    ensures a == b && s == t
  {
    assert (a + s)[..|a|] == a && (b + t)[..|b|] == b;
    assert (a + s)[|a|..] == s && (b + t)[|b|..] == t;
  }

  lemma Flatten(a: seq<Byte>, b: seq<Byte>, c: seq<Byte>, d: seq<Byte>)
    ensures a + b + c + d == a + (b + (c + d))
  {
  }

  lemma EntryIsUnique(prefix: string, i: nat, p: seq<Byte>, q: seq<Byte>, s: seq<Byte>, t: seq<Byte>)
    requires i < ENTRIES && Encodable(prefix, i, |p|) && Encodable(prefix, i, |q|)
    requires EntryBytes(prefix, i, p) + s == EntryBytes(prefix, i, q) + t
    ensures p == q && s == t
  {
    hide Header, Layout;
    var f, g := EntryFields(prefix, i, |p|), EntryFields(prefix, i, |q|);
    HeaderReadsBack(f);
    HeaderReadsBack(g);
    var h, k := Header(f).value, Header(g).value;
    var y, z := Zeros(Padded(|p|) - |p|), Zeros(Padded(|q|) - |q|);
    assert EntryBytes(prefix, i, p) == h + p + y && EntryBytes(prefix, i, q) == k + q + z;
    assert g == f.(size := |q|);
    Flatten(h, p, y, s);
    Flatten(k, q, z, t);
    hide EntryBytes, Padded, EntryFields;
    SameStart(h, p + (y + s), k, q + (z + t));
    HeaderFixesSize(f, |q|);
    SameStart(p, y + s, q, z + t);
    SameStart(y, s, z, t);
  }

  lemma SerializeStep(prefix: string, ps: seq<seq<Byte>>, s: seq<Byte>)
    requires 0 < |ps| <= ENTRIES && AllEncodable(prefix, ps)
    ensures
      var n := |ps| - 1;
      && AllEncodable(prefix, ps[..n]) && Encodable(prefix, n, |ps[n]|)
      && Serialize(prefix, ps) + s == Serialize(prefix, ps[..n]) + (EntryBytes(prefix, n, ps[n]) + s)
  {
    hide EntryBytes, Encodable;
    var n := |ps| - 1;
    Associate(Serialize(prefix, ps[..n]), EntryBytes(prefix, n, ps[n]), s);
  }

  /** A stream begins with the serialization of at most one list of payloads. */
  lemma {:induction false} SerializationIsUnique(prefix: string, ps: seq<seq<Byte>>, qs: seq<seq<Byte>>, s: seq<Byte>,
                                                 t: seq<Byte>)
    requires |ps| == |qs| <= ENTRIES && AllEncodable(prefix, ps) && AllEncodable(prefix, qs)
    requires Serialize(prefix, ps) + s == Serialize(prefix, qs) + t
    ensures ps == qs && s == t
  {
    hide EntryBytes, Serialize, AllEncodable, Encodable;
    if ps == [] {
      NothingSerialized(prefix, ps, s);
      NothingSerialized(prefix, qs, t);
    } else {
      var n := |ps| - 1;
      SerializeStep(prefix, ps, s);
      SerializeStep(prefix, qs, t);
      SerializationIsUnique(prefix, ps[..n], qs[..n], EntryBytes(prefix, n, ps[n]) + s,
          EntryBytes(prefix, n, qs[n]) + t);
      EntryIsUnique(prefix, n, ps[n], qs[n], s, t);
      SameEnds(ps, qs, n);
    }
  }

  lemma SameEnds<T>(ps: seq<T>, qs: seq<T>, n: nat)
    requires |ps| == |qs| == n + 1 && ps[..n] == qs[..n] && ps[n] == qs[n]
    ensures ps == qs
  {
    assert ps == ps[..n] + [ps[n]] && qs == qs[..n] + [qs[n]];
  }

  lemma NothingSerialized(prefix: string, ps: seq<seq<Byte>>, s: seq<Byte>)
    requires ps == []
    ensures Serialize(prefix, ps) + s == s
  {
  }

  /** The payloads of a canonical stream can be read off it: there is only one such list. */
  lemma CanonicalPayloadsAreUnique(stream: seq<Byte>, prefix: string, ps: seq<seq<Byte>>, qs: seq<seq<Byte>>)
    requires CarriesPayloads(stream, prefix, ps) && CarriesPayloads(stream, prefix, qs)
    ensures ps == qs
  {
    hide Serialize, Encodable, RecordEnd;
    var a, b := Serialize(prefix, ps), Serialize(prefix, qs);
    SerializationIsUnique(prefix, ps, qs, Zeros(RecordEnd(|a| + 2 * BLOCK) - |a|),
        Zeros(RecordEnd(|b| + 2 * BLOCK) - |b|));
  }

  /** An accepted stream is canonical exactly when the reader's logical end falls in the same record as the end of
      the members and nothing but zeros lies between them. */
  lemma AcceptedIsCanonicalExactly(stream: seq<Byte>, prefix: string, members: seq<Member>, logicalEnd: nat)
    requires Accepts(stream, prefix, members, logicalEnd)
    ensures
      var end := OffsetOf(members);
      && end <= |stream| && logicalEnd <= |stream|
      && (Canonical(stream, prefix) <==>
            && RecordEnd(logicalEnd + 2 * BLOCK) == RecordEnd(end + 2 * BLOCK)
            && (logicalEnd <= end || AllZero(stream[end..logicalEnd])))
  {
    hide AcceptsMembers, Serialize, Encodable, RecordEnd;
    var end, ps := OffsetOf(members), Payloads(stream, members);
    MembersAreSerialized(stream, prefix, members);
    FirstPayloadEmpty(stream, prefix, members);
    assert stream == stream[..end] + stream[end..];
    if Canonical(stream, prefix) {
      var qs :| CarriesPayloads(stream, prefix, qs);
      var body := Serialize(prefix, qs);
      var rest := Zeros(RecordEnd(|body| + 2 * BLOCK) - |body|);
      SerializationIsUnique(prefix, ps, qs, stream[end..], rest);
      assert |body| == end;
      assert logicalEnd > end ==> stream[end..logicalEnd] == stream[end..][..logicalEnd - end];
    }
    if RecordEnd(logicalEnd + 2 * BLOCK) == RecordEnd(end + 2 * BLOCK)
       && (logicalEnd <= end || AllZero(stream[end..logicalEnd]))
    {
      forall i | end <= i < |stream| ensures stream[i] == 0 {
        if i < logicalEnd {
          assert stream[end..logicalEnd][i - end] == 0;
        } else {
          assert stream[logicalEnd..][i - logicalEnd] == 0;
        }
      }
      ZeroBytes(stream[end..]);
      assert CarriesPayloads(stream, prefix, ps);
    }
  }

  lemma FirstPayloadEmpty(stream: seq<Byte>, prefix: string, members: seq<Member>)
    requires |members| == ENTRIES && AcceptsMembers(stream, prefix, members)
    ensures Payloads(stream, members)[0] == []
  {
    assert AcceptsMember(stream, prefix, members[0], 0, OffsetOf(members[..0]));
  }

  /** When the reader stopped where the members end, an accepted stream equals the canonical serialization of its
      payloads: every byte is pinned. */
  lemma AcceptedIsCanonical(stream: seq<Byte>, prefix: string, members: seq<Member>)
    requires Accepts(stream, prefix, members, OffsetOf(members))
    ensures CarriesPayloads(stream, prefix, Payloads(stream, members))
  {
    hide AcceptsMembers, Serialize, Encodable, RecordEnd, OffsetOf;
    var end := OffsetOf(members);
    AcceptedIsCanonicalExactly(stream, prefix, members, end);
    var qs :| CarriesPayloads(stream, prefix, qs);
    MembersAreSerialized(stream, prefix, members);
    var body := Serialize(prefix, qs);
    assert stream == stream[..end] + stream[end..];
    SerializationIsUnique(prefix, Payloads(stream, members), qs, stream[end..],
                          Zeros(RecordEnd(|body| + 2 * BLOCK) - |body|));
  }

  // ---- canonical streams are accepted ---------------------------------------------------------

  /** The claims of a reader that reports what the canonical entry says. */
  function HonestMember(prefix: string, i: nat, offset: nat, size: nat): Member
    requires i < ENTRIES
  {
    Member(Layout(prefix)[i], EntryFields(prefix, i, size).kind, EntryFields(prefix, i, size).mode,
           0, 0, "", "", 0, "", 0, 0, false, offset, offset + BLOCK, size)
  }

  function HonestMembers(prefix: string, payloads: seq<seq<Byte>>): (r: seq<Member>)
    requires |payloads| <= ENTRIES
    ensures |r| == |payloads|
  {
    if payloads == [] then []
    else
      var n := |payloads| - 1;
      var front := HonestMembers(prefix, payloads[..n]);
      front + [HonestMember(prefix, n, OffsetOf(front), |payloads[n]|)]
  }

  predicate WithinLimits(payloads: seq<seq<Byte>>) {
    && (|payloads| > 0 ==> payloads[0] == [])
    && (|payloads| > 1 ==> |payloads[1]| <= MAX_BINARY_BYTES)
  }

  lemma EntryIsHeld(stream: seq<Byte>, before: seq<Byte>, prefix: string, i: nat, payload: seq<Byte>, rest: seq<Byte>)
    requires i < ENTRIES && Encodable(prefix, i, |payload|)
    requires stream == before + (EntryBytes(prefix, i, payload) + rest)
    ensures HoldsEntry(stream, prefix, i, |before|, |payload|)
    ensures |EntryBytes(prefix, i, payload)| == BLOCK + Padded(|payload|)
  {
    hide EntryFields, Header, Padded;
    HeaderReadsBack(EntryFields(prefix, i, |payload|));
    var h := Header(EntryFields(prefix, i, |payload|)).value;
    var z := Zeros(Padded(|payload|) - |payload|);
    Flatten(h, payload, z, rest);
    assert stream[|before|..] == h + (payload + (z + rest));
    var tail := stream[|before|..];
    assert tail[..BLOCK] == h;
    assert stream[|before|..|before| + BLOCK] == tail[..BLOCK];
    var a, b := BLOCK + |payload|, BLOCK + Padded(|payload|);
    assert tail[a..b] == z;
    assert stream[|before| + a..|before| + b] == tail[a..b];
  }

  lemma PushAccepted(stream: seq<Byte>, prefix: string, front: seq<Member>, m: Member)
    requires |front| < ENTRIES && AcceptsMembers(stream, prefix, front)
    requires AcceptsMember(stream, prefix, m, |front|, OffsetOf(front))
    ensures AcceptsMembers(stream, prefix, front + [m])
  {
    hide AcceptsMember, OffsetOf;
    var all := front + [m];
    forall i | 0 <= i < |all| ensures AcceptsMember(stream, prefix, all[i], i, OffsetOf(all[..i])) {
      assert i < |front| ==> all[..i] == front[..i];
      assert all[..|front|] == front;
    }
  }

  lemma {:induction false} SerializedIsAccepted(stream: seq<Byte>, prefix: string, ps: seq<seq<Byte>>, rest: seq<Byte>)
    requires |ps| <= ENTRIES && AllEncodable(prefix, ps) && WithinLimits(ps)
    requires stream == Serialize(prefix, ps) + rest
    ensures AcceptsMembers(stream, prefix, HonestMembers(prefix, ps))
    ensures OffsetOf(HonestMembers(prefix, ps)) == |Serialize(prefix, ps)|
  {
    hide EntryBytes, Encodable, HoldsEntry, EntryFields, Padded, AcceptsMembers;
    if ps == [] {
      NoMembersAccepted(stream, prefix);
    } else {
      var n := |ps| - 1;
      var front := HonestMembers(prefix, ps[..n]);
      var m := HonestMember(prefix, n, OffsetOf(front), |ps[n]|);
      SerializeStep(prefix, ps, rest);
      SerializedIsAccepted(stream, prefix, ps[..n], EntryBytes(prefix, n, ps[n]) + rest);
      EntryIsHeld(stream, Serialize(prefix, ps[..n]), prefix, n, ps[n], rest);
      HonestIsPlain(prefix, n, OffsetOf(front), |ps[n]|);
      PushAccepted(stream, prefix, front, m);
      OffsetOfPush(front, m);
    }
  }

  lemma OffsetOfPush(front: seq<Member>, m: Member)
    ensures OffsetOf(front + [m]) == OffsetOf(front) + BLOCK + Padded(SizeOf(m))
  {
    assert (front + [m])[..|front|] == front;
  }

  lemma HonestIsPlain(prefix: string, i: nat, offset: nat, size: nat)
    requires i < ENTRIES && (i == 0 ==> size == 0)
    ensures PlainMember(HonestMember(prefix, i, offset, size), prefix, i, offset)
  {
  }

  lemma NoMembersAccepted(stream: seq<Byte>, prefix: string)
    ensures AcceptsMembers(stream, prefix, [])
  {
  }

  /** Every canonical stream within the size limits is accepted when the reader reports it honestly. */
  lemma CanonicalIsAccepted(stream: seq<Byte>, prefix: string, ps: seq<seq<Byte>>)
    requires CarriesPayloads(stream, prefix, ps) && WithinLimits(ps)
    requires ContentBytes(HonestMembers(prefix, ps)) <= MAX_ARCHIVE_CONTENT_BYTES
    ensures Accepts(stream, prefix, HonestMembers(prefix, ps), OffsetOf(HonestMembers(prefix, ps)))
  {
    hide AcceptsMembers, Serialize, Encodable, HonestMembers, OffsetOf, RecordEnd, ContentBytes, WithinLimits;
    var body := Serialize(prefix, ps);
    SerializedIsAccepted(stream, prefix, ps, Zeros(RecordEnd(|body| + 2 * BLOCK) - |body|));
  }

  // ---- the reader's end is not checked against the members ------------------------------------

  /** The canonical stream with its first byte after the members set. */
  function Tampered(prefix: string, ps: seq<seq<Byte>>): seq<Byte>
    requires |ps| == ENTRIES && AllEncodable(prefix, ps)
  {
    var body := Serialize(prefix, ps);
    body + ([1] + Zeros(RecordEnd(|body| + 2 * BLOCK) - |body| - 1))
  }

  /** A reader that reports its end one block late gets a noncanonical stream accepted, whenever that block stays in
      the last record. */
  lemma LateEndIsAccepted(prefix: string, ps: seq<seq<Byte>>)
    requires |ps| == ENTRIES && AllEncodable(prefix, ps) && WithinLimits(ps)
    requires ContentBytes(HonestMembers(prefix, ps)) <= MAX_ARCHIVE_CONTENT_BYTES
    requires
      var end := |Serialize(prefix, ps)|;
      RecordEnd(end + 3 * BLOCK) == RecordEnd(end + 2 * BLOCK)
    ensures
      var end := |Serialize(prefix, ps)|;
      Accepts(Tampered(prefix, ps), prefix, HonestMembers(prefix, ps), end + BLOCK)
    ensures !Canonical(Tampered(prefix, ps), prefix)
  {
    hide AcceptsMembers, Serialize, Encodable, HonestMembers, OffsetOf, RecordEnd, ContentBytes, WithinLimits;
    var stream, body := Tampered(prefix, ps), Serialize(prefix, ps);
    var end := |body|;
    SerializedIsAccepted(stream, prefix, ps, [1] + Zeros(RecordEnd(end + 2 * BLOCK) - end - 1));
    assert stream[end] == 1;
    assert stream[end..end + BLOCK][0] == 1;
    AcceptedIsCanonicalExactly(stream, prefix, HonestMembers(prefix, ps), end + BLOCK);
  }

  lemma EmptyEntryEncodable(prefix: string, i: nat)
    requires ReleasePrefix(prefix) && |prefix| <= 80 && i < ENTRIES
    ensures Encodable(prefix, i, 0)
  {
    var f := EntryFields(prefix, i, 0);
    assert |f.name| <= 100 && IsAscii(f.name);
    assert f.mode == 0x1ED || f.mode == 0x1A4;
    assert OctalField(0x1ED, 8).Some? && OctalField(0x1A4, 8).Some? by {
      assert Pow8(7) == 8 * 8 * 8 * 8 * Pow8(3);
      assert Pow8(3) == 512;
    }
    ZeroFieldsFit();
  }

  /** A release of five empty entries is such a stream, for every short release name. */
  lemma EmptyReleaseCanBeTampered(prefix: string, ps: seq<seq<Byte>>)
    requires ReleasePrefix(prefix) && |prefix| <= 80
    requires |ps| == ENTRIES && forall i :: 0 <= i < ENTRIES ==> ps[i] == []
    ensures AllEncodable(prefix, ps)
    ensures Accepts(Tampered(prefix, ps), prefix, HonestMembers(prefix, ps), 6 * BLOCK)
    ensures OffsetOf(HonestMembers(prefix, ps)) == 5 * BLOCK && !Canonical(Tampered(prefix, ps), prefix)
  {
    hide AcceptsMembers, Encodable, Header, Serialize, HonestMembers, OffsetOf, ContentBytes, ReleasePrefix,
         Tampered, RecordEnd, Canonical, Accepts;
    forall i | 0 <= i < ENTRIES ensures Encodable(prefix, i, |ps[i]|) {
      EmptyEntryEncodable(prefix, i);
    }
    NoContent(prefix, ps);
    SerializedIsAccepted(Serialize(prefix, ps) + [], prefix, ps, []);
    RecordsOfEmpty();
    LateEndIsAccepted(prefix, ps);
  }

  lemma RecordsOfEmpty()
    ensures RecordEnd(5 * BLOCK + 3 * BLOCK) == RecordEnd(5 * BLOCK + 2 * BLOCK) == RECORD
  {
  }

  lemma SomeNoncanonicalStreamIsAccepted(prefix: string) returns (stream: seq<Byte>, members: seq<Member>, end: nat)
    requires ReleasePrefix(prefix) && |prefix| <= 80
    ensures Accepts(stream, prefix, members, end) && !Canonical(stream, prefix)
    ensures OffsetOf(members) == 5 * BLOCK && end == 6 * BLOCK
  {
    var ps: seq<seq<Byte>> := seq(ENTRIES, _ => []);
    EmptyReleaseCanBeTampered(prefix, ps);
    stream, members, end := Tampered(prefix, ps), HonestMembers(prefix, ps), 6 * BLOCK;
  }

  lemma {:induction false} NoContent(prefix: string, ps: seq<seq<Byte>>)
    requires |ps| <= ENTRIES && forall i :: 0 <= i < |ps| ==> ps[i] == []
    ensures ContentBytes(HonestMembers(prefix, ps)) == 0 && OffsetOf(HonestMembers(prefix, ps)) == |ps| * BLOCK
  {
    hide EntryFields;
    if ps != [] {
      var n := |ps| - 1;
      NoContent(prefix, ps[..n]);
      var front := HonestMembers(prefix, ps[..n]);
      assert (front + [HonestMember(prefix, n, OffsetOf(front), 0)])[..n] == front;
    }
  }

  // ---- what any reader gets from an entry -----------------------------------------------------

  lemma ReleaseNamesAreFaithful(prefix: string, file: string)
    requires ReleasePrefix(prefix) && forall i :: 0 <= i < |file| ==> file[i] != 0 as char
    ensures !HasNul(prefix + file) && (prefix + file)[0] != '/'
  {
    var name := prefix + file;
    assert prefix[..10][0] == prefix[0] == 'c';
    forall i | 0 <= i < |name| ensures name[i] != 0 as char {
      if i >= |prefix| { assert name[i] == file[i - |prefix|]; }
    }
  }

  /** The five entries as a USTAR reader gets them: the directory, the program, and three texts. */
  lemma EntryReadsBack(prefix: string, i: nat, payload: seq<Byte>)
    requires ReleasePrefix(prefix) && i < 5 && Encodable(prefix, i, |payload|)
    ensures |EntryBytes(prefix, i, payload)| >= 512
    ensures
      var file := if i == 0 then "/" else if i == 1 then "/calcifer" else if i == 2 then "/LICENSE"
                  else if i == 3 then "/README.md" else "/SECURITY.md";
      Decode(EntryBytes(prefix, i, payload)[..512])
      == Some(Fields(prefix + file, |payload|, if i < 2 then 493 else 420, if i == 0 then 53 else 48))
  {
    hide Decode, Header, ReleasePrefix;
    var file := if i == 0 then "/" else if i == 1 then "/calcifer" else if i == 2 then "/LICENSE"
                else if i == 3 then "/README.md" else "/SECURITY.md";
    var f := EntryFields(prefix, i, |payload|);
    assert forall k :: 0 <= k < |file| ==> file[k] != 0 as char;
    ReleaseNamesAreFaithful(prefix, file);
    HeaderReadsBack(f);
    assert EntryBytes(prefix, i, payload)[..512] == Header(f).value;
  }

  /** A canonical stream fills whole records of twenty blocks and ends in at least two blocks of zeros. */
  lemma CanonicalFillsRecords(prefix: string, payloads: seq<seq<Byte>>)
    requires |payloads| == 5 && AllEncodable(prefix, payloads)
    ensures
      var stream, body := CanonicalStream(prefix, payloads), Serialize(prefix, payloads);
      && |stream| % (20 * 512) == 0 && |body| + 2 * 512 <= |stream| < |body| + 22 * 512
      && stream[..|body|] == body && AllZero(stream[|body|..])
  {
    hide Serialize;
  }
}

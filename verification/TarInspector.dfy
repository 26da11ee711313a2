/** The inspector as the program runs it: one loop over the members the tar reader reports. */
module TarInspector {
  import opened Prelude
  import opened Slashes
  import opened Ustar
  import opened TarInspect

  /** One trailing slash is dropped before a path is compared. */
  function Normalized(name: string): string {
    if name != "" && name[|name| - 1] == '/' then name[..|name| - 1] else name
  }

  /** The path check. The path library drops empty and "." components itself, so only ".." can be left to refuse. */
  predicate SafePath(name: string) {
    && (forall i :: 0 <= i < |name| ==> name[i] != '\\')
    && Normalized(name) != "" && Normalized(name)[0] != '/' && ".." !in Split(Normalized(name))
  }

  // ---- the layout passes its own checks -------------------------------------------------------

  lemma SplitOfEntry(prefix: string, file: string)
    requires ReleasePrefix(prefix) && forall i :: 0 <= i < |file| ==> file[i] != '/'
    ensures Split(prefix) == [prefix] && Split(prefix + "/" + file) == [prefix, file]
  {
    NoSlashSplits(prefix);
    NoSlashSplits(file);
    SplitAround(prefix, file);
    assert prefix + "/" + file == prefix + ("/" + file);
  }

  lemma EntryIsSafe(prefix: string, file: string)
    requires ReleasePrefix(prefix) && forall i :: 0 <= i < |file| ==> file[i] != '/' && file[i] != '\\'
    requires |file| > 2
    ensures SafePath(prefix) && Normalized(prefix) == prefix
    ensures SafePath(prefix + "/" + file) && Normalized(prefix + "/" + file) == prefix + "/" + file
  {
    SplitOfEntry(prefix, file);
    var name := prefix + "/" + file;
    assert name[|name| - 1] == file[|file| - 1];
    assert prefix[0] == prefix[..10][0];
    hide Split;
  }

  lemma LayoutIsSafe(prefix: string, i: nat)
    requires ReleasePrefix(prefix) && i < ENTRIES
    ensures SafePath(Layout(prefix)[i]) && Normalized(Layout(prefix)[i]) == Layout(prefix)[i]
  {
    hide SafePath, Normalized, ReleasePrefix;
    EntryIsSafe(prefix, "calcifer");
    EntryIsSafe(prefix, "LICENSE");
    EntryIsSafe(prefix, "README.md");
    EntryIsSafe(prefix, "SECURITY.md");
    assert prefix + "/calcifer" == prefix + "/" + "calcifer";
    assert prefix + "/LICENSE" == prefix + "/" + "LICENSE";
    assert prefix + "/README.md" == prefix + "/" + "README.md";
    assert prefix + "/SECURITY.md" == prefix + "/" + "SECURITY.md";
  }

  lemma LayoutLengths(prefix: string)
    ensures |Layout(prefix)[0]| == |prefix| && |Layout(prefix)[1]| == |prefix| + 9
            && |Layout(prefix)[2]| == |prefix| + 8
    ensures |Layout(prefix)[3]| == |prefix| + 10 && |Layout(prefix)[4]| == |prefix| + 12
  {
  }

  // ---- the loop -------------------------------------------------------------------------------

  /** Reading outside the stream is refused; an empty read is not. */
  method ReadExactAt(stream: seq<Byte>, offset: nat, length: nat) returns (r: Option<seq<Byte>>)
    ensures r.Some? <==> length == 0 || offset + length <= |stream|
    ensures r.Some? ==>
              |r.value| == length && (offset + length <= |stream| ==> r.value == stream[offset..offset + length])
  {
    if length == 0 {
      return Some([]);
    }
    if offset + length > |stream| {
      return None;
    }
    return Some(stream[offset..offset + length]);
  }

  method AnyNonZero(bytes: seq<Byte>) returns (any: bool)
    ensures any <==> !AllZero(bytes)
  {
    for i := 0 to |bytes|
      invariant AllZero(bytes[..i])
    {
      if bytes[i] != 0 {
        return true;
      }
    }
    assert bytes[..|bytes|] == bytes;
    return false;
  }

  /** The checks on what the reader claims: path, type, order and every metadata field. */
  method CheckClaims(m: Member, order: seq<string>, index: nat, directory: string, binaryPath: string, offset: nat)
    returns (ok: bool)
    requires |order| == ENTRIES
    ensures ok <==>
              && index < ENTRIES && SafePath(m.name) && m.name == order[index]
              && var name := Normalized(m.name);
              && m.kind == (if name == directory then DIRECTORY else REGULAR)
              && (name == directory ==> m.size == 0)
              && m.mode == (if name == directory || name == binaryPath then 0x1ED else 0x1A4)
              && m.uid == 0 && m.gid == 0 && m.uname == "" && m.gname == "" && m.mtime == 0 && m.linkname == ""
              && m.devmajor == 0 && m.devminor == 0 && !m.hasPaxHeaders
              && m.offset == offset && m.offsetData == offset + BLOCK && m.size >= 0
  {
    hide SafePath, Normalized;
    if index >= MAX_ARCHIVE_ENTRIES || !SafePath(m.name) {
      return false;
    }
    var name := Normalized(m.name);
    if !IsDirectory(m) && !IsRegular(m) {
      return false;
    }
    if name == directory {
      if !IsDirectory(m) || m.size != 0 {
        return false;
      }
    } else if !IsRegular(m) {
      return false;
    }
    var mode := if name == directory || name == binaryPath then 0x1ED else 0x1A4;
    var kind := if name == directory then DIRECTORY else REGULAR;
    if index >= |order| || m.name != order[index] || m.kind != kind || m.mode != mode
       || m.uid != 0 || m.gid != 0 || m.uname != "" || m.gname != "" || m.mtime != 0 || m.linkname != ""
       || m.devmajor != 0 || m.devminor != 0 || m.hasPaxHeaders
       || m.offset != offset || m.offsetData != offset + BLOCK
    {
      return false;
    }
    return m.size >= 0;
  }

  /** For the release layout those checks say that the claims are plain. */
  lemma ClaimsArePlain(m: Member, prefix: string, index: nat, offset: nat)
    requires ReleasePrefix(prefix) && index < ENTRIES
    ensures PlainMember(m, prefix, index, offset) <==>
              && SafePath(m.name) && m.name == Layout(prefix)[index]
              && var name := Normalized(m.name);
              && m.kind == (if name == prefix then DIRECTORY else REGULAR)
              && (name == prefix ==> m.size == 0)
              && m.mode == (if name == prefix || name == Layout(prefix)[1] then 0x1ED else 0x1A4)
              && m.uid == 0 && m.gid == 0 && m.uname == "" && m.gname == "" && m.mtime == 0 && m.linkname == ""
              && m.devmajor == 0 && m.devminor == 0 && !m.hasPaxHeaders
              && m.offset == offset && m.offsetData == offset + BLOCK && m.size >= 0
  {
    LayoutIsSafe(prefix, index);
    LayoutLengths(prefix);
    hide SafePath, Normalized, ReleasePrefix;
    assert Layout(prefix)[index] == prefix <==> index == 0;
    assert Layout(prefix)[index] == Layout(prefix)[1] <==> index == 1;
  }

  lemma PlainMemberFacts(m: Member, prefix: string, index: nat, offset: nat)
    requires ReleasePrefix(prefix) && index < ENTRIES && PlainMember(m, prefix, index, offset)
    ensures Normalized(m.name) == Layout(prefix)[index] && (Normalized(m.name) == Layout(prefix)[1] <==> index == 1)
    ensures (IsRegular(m) <==> index != 0) && m.size >= 0 && m.offset == offset && m.offsetData == offset + BLOCK
  {
    LayoutIsSafe(prefix, index);
    LayoutLengths(prefix);
    hide SafePath, Normalized, ReleasePrefix;
    assert Layout(prefix)[index] == Layout(prefix)[1] <==> index == 1;
  }

  /** The checks on the bytes: the header that the claims call for, zero padding, a payload of the claimed size. */
  method CheckBytes(stream: seq<Byte>, prefix: string, m: Member, index: nat, offset: nat) returns (ok: bool)
    requires index < ENTRIES && PlainMember(m, prefix, index, offset)
    ensures ok <==> HoldsEntry(stream, prefix, index, offset, m.size)
  {
    hide Header, Padded, Layout;
    var expected := BuildHeader(EntryFields(prefix, index, m.size));
    if expected.None? {
      return false;
    }
    HeaderReadsBack(EntryFields(prefix, index, m.size));
    hide EntryFields;
    var actual := ReadExactAt(stream, m.offset, HEADER_BYTES);
    if actual.None? || actual.value != expected.value {
      return false;
    }
    var start, end := m.offsetData + m.size, m.offsetData + Padded(m.size);
    var padding := ReadExactAt(stream, start, end - start);
    if padding.None? {
      return false;
    }
    var dirty := AnyNonZero(padding.value);
    if dirty {
      assert end - start > 0;
      return false;
    }
    if m.offsetData + m.size > |stream| {
      return false;
    }
    assert end <= |stream|;
    ok := true;
  }

  method InspectTar(stream: seq<Byte>, prefix: string, members: seq<Member>, logicalEnd: nat) returns (ok: bool)
    requires ReleasePrefix(prefix)
    ensures ok <==> Accepts(stream, prefix, members, logicalEnd)
  {
    hide AcceptsMembers, PlainMember, HoldsEntry, Layout, ReleasePrefix, SafePath, Normalized, Padded, RecordEnd;
    var order := Layout(prefix);
    var binaryPath := order[1];
    var directory := Split(binaryPath)[0];
    assert directory == prefix by { BinaryDirectory(prefix); }
    var names: seq<string> := [];
    var content, expectedOffset, sawBinary := 0, 0, false;
    NoMembersAccepted(stream, prefix);
    assert members[..0] == [];
    for index := 0 to |members|
      invariant index <= ENTRIES && AcceptsMembers(stream, prefix, members[..index])
      invariant expectedOffset == OffsetOf(members[..index])
      invariant content == ContentBytes(members[..index]) <= MAX_ARCHIVE_CONTENT_BYTES
      invariant names == order[..index] && (sawBinary <==> index >= 2)
    {
      var m := members[index];
      assert members[..index + 1] == members[..index] + [m];
      assert members[..index + 1][..index] == members[..index];
      NextMember(stream, prefix, members, index, logicalEnd);
      var plain := CheckClaims(m, order, index, directory, binaryPath, expectedOffset);
      if index < ENTRIES { ClaimsArePlain(m, prefix, index, expectedOffset); }
      if !plain {
        return false;
      }
      PlainMemberFacts(m, prefix, index, expectedOffset);
      var held := CheckBytes(stream, prefix, m, index, expectedOffset);
      if !held {
        return false;
      }
      names := names + [Normalized(m.name)];
      assert order[..index + 1] == order[..index] + [order[index]];
      if IsRegular(m) {
        content := content + m.size;
        if content > MAX_ARCHIVE_CONTENT_BYTES {
          return false;
        }
        if Normalized(m.name) == binaryPath {
          if m.size > MAX_BINARY_BYTES {
            return false;
          }
          sawBinary := true;
        }
      }
      expectedOffset := m.offsetData + Padded(m.size);
    }
    assert members[..|members|] == members;
    if names != order || !sawBinary {
      return false;
    }
    if |stream| != RecordEnd(logicalEnd + 2 * BLOCK) {
      return false;
    }
    var dirty := AnyNonZero(stream[logicalEnd..]);
    return !dirty;
  }

  lemma BinaryDirectory(prefix: string)
    requires ReleasePrefix(prefix)
    ensures Split(Layout(prefix)[1])[0] == prefix
  {
    SplitOfEntry(prefix, "calcifer");
    assert prefix + "/calcifer" == prefix + "/" + "calcifer";
  }

  lemma {:induction false} ContentGrows(members: seq<Member>, k: nat)
    requires k <= |members| && forall i :: 0 <= i < |members| ==> members[i].size >= 0
    ensures ContentBytes(members[..k]) <= ContentBytes(members)
  {
    if k < |members| {
      var front := members[..|members| - 1];
      ContentGrows(front, k);
      assert front[..k] == members[..k];
    } else {
      assert members[..k] == members;
    }
  }

  lemma SizesAreNatural(stream: seq<Byte>, prefix: string, members: seq<Member>)
    requires AcceptsMembers(stream, prefix, members)
    ensures forall i :: 0 <= i < |members| ==> members[i].size >= 0
  {
    hide HoldsEntry, EntryFields, Layout, OffsetOf;
    forall i | 0 <= i < |members| ensures members[i].size >= 0 {
      assert AcceptsMember(stream, prefix, members[i], i, OffsetOf(members[..i]));
    }
  }

  /** If the whole archive is acceptable, so is its next member, and the content so far is within the limit. */
  lemma NextMember(stream: seq<Byte>, prefix: string, members: seq<Member>, index: nat, logicalEnd: nat)
    requires index < |members| && AcceptsMembers(stream, prefix, members[..index])
    ensures Accepts(stream, prefix, members, logicalEnd) ==>
              && index < ENTRIES && AcceptsMember(stream, prefix, members[index], index, OffsetOf(members[..index]))
              && ContentBytes(members[..index + 1]) <= MAX_ARCHIVE_CONTENT_BYTES
    ensures index < ENTRIES && AcceptsMember(stream, prefix, members[index], index, OffsetOf(members[..index])) ==>
              AcceptsMembers(stream, prefix, members[..index + 1])
  {
    hide AcceptsMember, OffsetOf, ContentBytes;
    if Accepts(stream, prefix, members, logicalEnd) {
      SizesAreNatural(stream, prefix, members);
      ContentGrows(members, index + 1);
    }
    if index < ENTRIES && AcceptsMember(stream, prefix, members[index], index, OffsetOf(members[..index])) {
      PushAccepted(stream, prefix, members[..index], members[index]);
      assert members[..index] + [members[index]] == members[..index + 1];
    }
  }
}

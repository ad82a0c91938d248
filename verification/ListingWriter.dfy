/** The listing writer: nested grouping loops into a metadata stream. */
module ListingWriter {
  import opened Bytes
  import opened Names
  import opened MetaStream
  import opened Listing

  /** The widths the caller's fixed-size fields already guarantee; name lengths are checked here. */
  ghost predicate FieldsFit(es: seq<DirEntry>) {
    forall i :: 0 <= i < |es| ==>
      es[i].ino < WRAP32 && es[i].blockByte < WRAP32 && es[i].off < 0x1_0000 && es[i].typ < 0x1_0000
  }

  predicate NameOk(e: DirEntry) { 1 <= |e.name| <= 256 }

  lemma {:induction false} RunPush(base: DirEntry, es: seq<DirEntry>, k: nat)
    requires k < |es| && Encodable(base, es)
    ensures EncodeRun(base, es[..k + 1]) == EncodeRun(base, es[..k]) + EncodeEntry(base, es[k])
  {
    hide EncodeEntry, Joins;
    if k == 0 {
      assert es[..1] == [es[0]] && es[..1][1..] == [] && es[..0] == [];
      assert EncodeRun(base, es[..1]) == EncodeEntry(base, es[0]) + [];
    } else {
      assert es[..k + 1][1..] == es[1..][..k] && es[..k][1..] == es[1..][..k - 1];
      RunPush(base, es[1..], k - 1);
      Assoc(EncodeEntry(base, es[0]), EncodeRun(base, es[1..][..k - 1]), EncodeEntry(base, es[k]));
    }
  }

  /** The probe forward for the largest run at `i`. */
  method ProbeRun(es: seq<DirEntry>, i: nat) returns (groupEnd: nat)
    requires i < |es|
    ensures i < groupEnd <= |es| && groupEnd - i == FirstRun(es[i..])
  {
    var base := es[i];
    groupEnd := i + 1;
    assert es[i..][..1] == [es[i]];
    while groupEnd < |es| && groupEnd - i < MAX_RUN
      invariant i < groupEnd <= |es| && groupEnd - i <= MAX_RUN
      invariant LegalRun(es[i..][..groupEnd - i])
      invariant RunLen(es[i..], groupEnd - i) == FirstRun(es[i..])
    {
      var n := es[groupEnd];
      if n.blockByte != base.blockByte {
        break;
      }
      var delta := n.ino - base.ino;
      if delta > 32767 || delta < -32768 {
        break;
      }
      assert es[i..][..groupEnd - i + 1] == es[i..][..groupEnd - i] + [n];
      groupEnd := groupEnd + 1;
    }
  }

  /** The entries of one group after its header; stops at the first bad name. */
  method WriteRun(meta: MetaWriter, base: DirEntry, run: seq<DirEntry>, size: nat) returns (ok: bool, listingBytes: nat)
    requires meta.Valid() && size < WRAP32
    requires forall k :: 0 <= k < |run| ==> Joins(base, run[k])
    modifies meta
    ensures ok ==> Encodable(base, run) && forall k :: 0 <= k < |run| ==> NameOk(run[k])
    ensures ok ==> meta.Valid() && meta.content == old(meta.content) + EncodeRun(base, run)
    ensures ok ==> listingBytes == (size + |EncodeRun(base, run)|) % WRAP32
    ensures !ok ==> (exists k :: 0 <= k < |run| && !NameOk(run[k])) || exists chunk :: meta.comp.compress(chunk).Failed?
  {
    hide Joins, Ints, MetaWriter.Valid;
    listingBytes := size;
    ghost var done: seq<Byte> := [];
    assert run[..0] == [];
    var j := 0;
    while j < |run|
      invariant j <= |run| && meta.Valid()
      invariant forall k :: 0 <= k < j ==> NameOk(run[k]) && run[k].name != []
      invariant done == EncodeRun(base, run[..j])
      invariant meta.content == old(meta.content) + done
      invariant listingBytes == (size + |done|) % WRAP32
    {
      var e := run[j];
      if |e.name| == 0 || |e.name| > 256 {
        return false, 0;
      }
      var delta := EntryDelta(base, e);
      var entBuf := Ints([e.off, delta, e.typ, |e.name| - 1], 2) + e.name;
      ok := meta.Write(entBuf);
      if !ok {
        return false, 0;
      }
      WrapAdd(size + |done|, |entBuf|);
      listingBytes := (listingBytes + |entBuf|) % WRAP32;
      assert entBuf == EncodeEntry(base, e);
      RunPush(base, run[..j + 1], j);
      assert run[..j + 1][..j] == run[..j] && run[..j + 1][..j + 1] == run[..j + 1];
      Assoc(old(meta.content), done, entBuf);
      done := done + entBuf;
      j := j + 1;
    }
    assert run[..|run|] == run;
    ok := true;
  }

  lemma WrapAdd(a: nat, b: nat)
    ensures (a % WRAP32 + b) % WRAP32 == (a + b) % WRAP32
  {
  }

  function EntryDelta(base: DirEntry, e: DirEntry): nat
    requires Joins(base, e)
  {
    Delta16(e.ino - base.ino)
  }

  /** One group: probe, header, entries. */
  method WriteGroup(meta: MetaWriter, es: seq<DirEntry>, i: nat, size: nat)
    returns (ok: bool, groupEnd: nat, listingBytes: nat)
    requires meta.Valid() && size < WRAP32 && i < |es|
    modifies meta
    ensures i < groupEnd <= |es| && groupEnd - i == FirstRun(es[i..])
    ensures ok ==> Encodable(es[i], es[i..][..groupEnd - i]) && forall k :: i <= k < groupEnd ==> NameOk(es[k])
    ensures ok ==> meta.Valid() && meta.content == old(meta.content) + EncodeGroup(es[i..])
    ensures ok ==> listingBytes == (size + |EncodeGroup(es[i..])|) % WRAP32
    ensures !ok ==> (exists k :: 0 <= k < |es| && !NameOk(es[k])) || exists chunk :: meta.comp.compress(chunk).Failed?
  {
    hide Joins, Ints, EncodeRun, FirstRun, NameOk, Encodable, MetaWriter.Valid;
    groupEnd := ProbeRun(es, i);
    var base := es[i];
    var count := groupEnd - i;
    var run := es[i..groupEnd];
    assert run == es[i..][..count];
    var hdr := Ints([count - 1, base.blockByte, base.ino], 4);
    ok := meta.Write(hdr);
    if !ok {
      return false, groupEnd, 0;
    }
    listingBytes := (size + 12) % WRAP32;
    assert forall k :: 0 <= k < |run| ==> Joins(base, run[k]);
    ok, listingBytes := WriteRun(meta, base, run, listingBytes);
    if ok {
      Assoc(old(meta.content), hdr, EncodeRun(base, run));
      forall k | i <= k < groupEnd ensures NameOk(es[k]) {
        assert run[k - i] == es[k];
      }
    } else if k :| 0 <= k < |run| && !NameOk(run[k]) {
      assert run[k] == es[i + k];
    }
  }

  /** Serializes one directory into `meta`: on success the stream grows by the listing of the
      entries in name order, and the byte count returned is its length (a u32). */
  method WriteDirListing(meta: MetaWriter, entries: seq<DirEntry>)
    returns (ok: bool, startRef: MetaRef, listingBytes: nat)
    requires meta.Valid() && FieldsFit(entries)
    modifies meta
    ensures ok ==> ValidEntries(SortBy(NameOf, entries))
    ensures ok ==> startRef == MetaRef(|Blocks.Full(meta.comp, META, old(meta.content))|, OffsetOf(old(meta.content)))
    ensures ok ==> meta.Valid() && meta.content == old(meta.content) + EncodeListing(SortBy(NameOf, entries))
    ensures ok ==> listingBytes == |EncodeListing(SortBy(NameOf, entries))| % WRAP32
    ensures !ok ==> (exists e :: e in entries && !NameOk(e)) || exists chunk :: meta.comp.compress(chunk).Failed?
  {
    hide Joins, EncodeGroup, EncodeListing, FirstRun, NameOk, Encodable, SortBy, ValidEntries, FieldsFit,
      MetaWriter.Valid, Blocks.Full, OffsetOf;
    var es := SortBy(NameOf, entries);
    SortedFit(entries, es);
    startRef := meta.Ref();
    listingBytes := 0;
    ghost var done: seq<Byte> := [];
    StartListing(es);
    var i := 0;
    while i < |es|
      invariant i <= |es| && meta.Valid()
      invariant forall k :: 0 <= k < i ==> NameOk(es[k])
      invariant meta.content == old(meta.content) + done
      invariant listingBytes == |done| % WRAP32
      invariant Remaining(es, i, done)
    {
      ghost var before := meta.content;
      var groupEnd;
      ok, groupEnd, listingBytes := WriteGroup(meta, es, i, listingBytes);
      if !ok {
        BadName(entries, es);
        return false, startRef, 0;
      }
      ghost var group := EncodeGroup(es[i..]);
      GroupDone(es, i, groupEnd, done);
      Assoc(old(meta.content), done, group);
      done := done + group;
      i := groupEnd;
    }
    EndListing(es, done);
    ok := true;
  }

  /** What is written and what remains make up the whole listing, if all names are good. */
  ghost predicate Remaining(es: seq<DirEntry>, i: nat, done: seq<Byte>)
    requires i <= |es|
  {
    ValidEntries(es) ==> ValidEntries(es[i..]) && done + EncodeListing(es[i..]) == EncodeListing(es)
  }

  lemma StartListing(es: seq<DirEntry>)
    ensures Remaining(es, 0, [])
  {
    assert es[0..] == es;
  }

  /** With its fields in range, an entry is valid exactly if its name has 1 to 256 bytes. */
  lemma NamedEntry(es: seq<DirEntry>, k: nat)
    requires FieldsFit(es) && k < |es|
    ensures ValidEntry(es[k]) <==> NameOk(es[k])
  {
  }

  lemma EndListing(es: seq<DirEntry>, done: seq<Byte>)
    requires Remaining(es, |es|, done) && FieldsFit(es) && forall k :: 0 <= k < |es| ==> NameOk(es[k])
    ensures ValidEntries(es) && done == EncodeListing(es)
  {
    assert es[|es|..] == [];
    assert done + [] == done;
    forall k | 0 <= k < |es| ensures ValidEntry(es[k]) { NamedEntry(es, k); }
  }

  lemma GroupDone(es: seq<DirEntry>, i: nat, groupEnd: nat, done: seq<Byte>)
    requires i < groupEnd <= |es| && groupEnd - i == FirstRun(es[i..])
    requires Encodable(es[i], es[i..][..groupEnd - i])
    requires Remaining(es, i, done)
    ensures Remaining(es, groupEnd, done + EncodeGroup(es[i..]))
  {
    hide EncodeGroup, FirstRun, Joins;
    if ValidEntries(es) {
      var tail, n := es[i..], groupEnd - i;
      assert tail[n..] == es[groupEnd..];
      RunsValid(tail, n);
      Assoc(done, EncodeGroup(tail), EncodeListing(tail[n..]));
    }
  }

  lemma SortedFit(entries: seq<DirEntry>, es: seq<DirEntry>)
    requires FieldsFit(entries) && multiset(es) == multiset(entries)
    ensures FieldsFit(es)
  {
    SameElements(es, entries);
    forall i | 0 <= i < |es|
      ensures es[i].ino < WRAP32 && es[i].blockByte < WRAP32 && es[i].off < 0x1_0000 && es[i].typ < 0x1_0000
    {
      assert es[i] in es;
      assert es[i] in entries;
    }
  }

  lemma BadName(entries: seq<DirEntry>, es: seq<DirEntry>)
    requires multiset(es) == multiset(entries)
    ensures (exists k :: 0 <= k < |es| && !NameOk(es[k])) ==> exists e :: e in entries && !NameOk(e)
  {
    SameElements(es, entries);
    if k :| 0 <= k < |es| && !NameOk(es[k]) {
      assert es[k] in es;
      assert es[k] in entries;
    }
  }
}

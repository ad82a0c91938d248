/** The image writer: Create calls stream entries and file data out, Close writes the tables and
    patches the superblock. */
module ImageWriter {
  import opened Bytes
  import opened Blocks
  import opened FileData
  import opened Paths
  import opened Tree
  import opened Entries
  import opened Image
  import opened Region
  import opened Streaming
  import opened Finalize
  import opened MetaStream
  import opened IdTable
  import opened TableWriter
  import opened WrittenImage
  import opened Closing
  import Passes
  import Reader
  import RoundTrip
  import ImageTheorem

  datatype Result = Ok | ErrOption | ErrClosed | ErrStale | ErrInvalidPath | ErrDuplicate | ErrHardlinkTarget
    | ErrSymlinkTarget | ErrFormat | ErrIO

  /** The attributes of a hardlink's own entry; a reader only ever sees its target's. */
  const NO_ATTRS: Attrs := Attrs(0, 0, 0, UNSET)

  /** Whether an entry may be created at `p`. */
  function Verdict(s: State, p: Path): Result {
    if !ValidPath(p) then ErrInvalidPath else if p in s.entries then ErrDuplicate else Ok
  }

  function SymlinkVerdict(s: State, p: Path, target: seq<Byte>): Result {
    if Verdict(s, p) != Ok then Verdict(s, p) else if target == [] then ErrSymlinkTarget else Ok
  }

  function HardlinkVerdict(s: State, p: Path, target: Path): Result {
    if !ValidPath(p) || !ValidPath(target) then ErrInvalidPath
    else if p in s.entries then ErrDuplicate
    else if target !in s.entries || !s.entries[target].kind.File? then ErrHardlinkTarget
    else Ok
  }

  /** Why a Create call may fail: the compressor, or a sink without room for the files so far. */
  ghost predicate IoCause(cfg: Config, capacity: nat, contents: map<Path, seq<Byte>>, order: seq<Path>) {
    cfg.blockSize > 0 && (CanFail(cfg.codec) || SUPER_SIZE + DataSize(cfg, contents, order) > capacity)
  }

  /** Why a write may fail: the compressor, or a sink without room for the full blocks so far. */
  ghost predicate WriteCause(cfg: Config, capacity: nat, contents: map<Path, seq<Byte>>, order: seq<Path>) {
    && cfg.blockSize > 0 && order != [] && order[|order| - 1] in contents
    && (CanFail(cfg.codec) || SUPER_SIZE + OpenSize(cfg, contents, order) > capacity)
  }

  class Writer {
    const cfg: Config
    /** The sink refuses to grow beyond this many bytes. */
    const capacity: nat
    var closed: bool
    var out: seq<Byte>
    var outPos: nat
    var entries: map<Path, Entry>
    var entryOrder: seq<Path>
    /** The file whose content is being streamed, and its bytes after the last emitted block. */
    var curFile: Option<Path>
    var buf: seq<Byte>
    /** Everything written to each file. */
    ghost var contents: map<Path, seq<Byte>>

    ghost function View(): State
      requires |out| >= SUPER_SIZE
      reads this
    {
      State(entries, entryOrder, contents, out[SUPER_SIZE..], curFile, buf)
    }

    ghost predicate Valid()
      reads this
    {
      && !closed && SUPER_SIZE <= |out| == outPos <= capacity < LIMIT48
      && Streams(cfg, View())
    }

    /** A writer over an empty sink: 96 placeholder bytes that no reader takes for a superblock. */
    constructor (cfg: Config, capacity: nat)
      requires ValidConfig(cfg) && SUPER_SIZE <= capacity < LIMIT48
      ensures Valid() && this.cfg == cfg && this.capacity == capacity
      ensures View() == State(map[], [], map[], [], None, [])
      ensures DecodeSuper(out) == None
    {
      this.cfg, this.capacity := cfg, capacity;
      closed, out, outPos := false, seq(SUPER_SIZE, i => 0), SUPER_SIZE;
      entries, entryOrder, curFile, buf := map[], [], None, [];
      contents := map[];
      new;
      BlockSizeRange(cfg);
      NoMagic(out);
      assert View() == State(map[], [], map[], [], None, []);
    }

    /** Appends to the sink; a full sink takes what fits and fails. */
    method WriteOut(b: seq<Byte>) returns (r: Result)
      requires |out| == outPos <= capacity
      modifies this`out, this`outPos
      ensures |out| == outPos <= capacity
      ensures r == Ok ==> out == old(out) + b
      ensures r != Ok ==> r == ErrIO && out <= old(out) + b && old(|out|) + |b| > capacity
    {
      var n := if |out| + |b| <= capacity then |b| else capacity - |out|;
      out := out + b[..n];
      outPos := outPos + n;
      r := if n == |b| then Ok else ErrIO;
    }

    /** Compresses the buffered block, raw where that does not pay, and appends it to the sink. */
    method EmitBlock() returns (r: Result)
      requires curFile.Some? && curFile.value in entries && entries[curFile.value].kind.File?
      requires SUPER_SIZE <= |out| == outPos <= capacity
      modifies this`out, this`outPos, this`entries, this`buf
      ensures |out| == outPos <= capacity && (r == Ok || r == ErrIO)
      ensures r == ErrIO ==> CanFail(cfg.codec) || old(|out|) + |Store(cfg.codec, old(buf)).data| > capacity
      ensures old(buf) == [] ==> r == Ok && out == old(out) && entries == old(entries) && buf == []
      ensures r == Ok && old(buf) != [] ==>
                && var e, b := old(entries)[curFile.value], Store(cfg.codec, old(buf));
                && out == old(out) + b.data && buf == []
                && entries == old(entries)[curFile.value := e.(kind := e.kind.(words := e.kind.words + [SizeWord(b)]))]
    {
      if buf == [] {
        return Ok;
      }
      var o := cfg.codec.compress(buf);
      var disk, sizeWord;
      if o.Incompressible? || (o.Compressed? && |o.out| >= |buf|) {
        disk, sizeWord := buf, |buf| + RAW_WORD;
      } else if o.Failed? {
        return ErrIO;
      } else {
        disk, sizeWord := o.out, |o.out|;
      }
      r := WriteOut(disk);
      if r != Ok {
        return;
      }
      var e := entries[curFile.value];
      entries := entries[curFile.value := e.(kind := e.kind.(words := e.kind.words + [sizeWord]))];
      buf := [];
    }

    /** Emits the tail block of the open file and closes it. */
    method FlushCurFile() returns (r: Result)
      requires Valid()
      modifies this`out, this`outPos, this`entries, this`buf, this`curFile
      ensures r == Ok || r == ErrIO
      ensures r == Ok ==> Valid() && View() == Sealing(cfg, old(View())) && curFile == None
      ensures r == ErrIO ==> CanFail(cfg.codec) || SUPER_SIZE + |Sealing(cfg, old(View())).data| > capacity
    {
      hide ValidConfig, Shaped, FinishedUpTo, Store, SizeWord, Full, Rem, Words, Disk, DataOf;
      SealingKeeps(cfg, View());
      if curFile == None {
        return Ok;
      }
      ghost var s, d := View(), out[SUPER_SIZE..];
      assert Open(cfg, s);
      r := EmitBlock();
      if r != Ok {
        return;
      }
      ghost var b := if old(buf) == [] then [] else Store(cfg.codec, old(buf)).data;
      assert out[SUPER_SIZE..] == d + b by { Behind(old(out), b); }
      curFile := None;
      assert d + [] == d;
    }

    /** What every Create call checks first. */
    method BeginEntry(p: Path) returns (r: Result)
      requires closed || Valid()
      modifies this`out, this`outPos, this`entries, this`buf, this`curFile
      ensures old(closed) ==> r == ErrClosed && unchanged(this)
      ensures !old(closed) && r == ErrIO ==> IoCause(cfg, capacity, contents, entryOrder)
      ensures !old(closed) && r != ErrIO ==>
                Valid() && curFile == None && View() == Sealing(cfg, old(View())) && r == Verdict(old(View()), p)
    {
      hide Streams, ValidPath, Sealing, DataOf, Listed;
      if closed {
        return ErrClosed;
      }
      SameKeys(cfg, View());
      SealingSize(cfg, View());
      ListedOf(cfg, View());
      r := FlushCurFile();
      if r != Ok {
        return;
      }
      if !ValidPath(p) {
        return ErrInvalidPath;
      }
      if p in entries {
        return ErrDuplicate;
      }
    }

    /** Records a new entry after all open files are sealed. */
    method Record(p: Path, e: Entry)
      requires Valid() && curFile == None && Addable(View(), p, e)
      modifies this`entries, this`entryOrder, this`curFile, this`contents
      ensures Valid() && View() == Adding(old(View()), p, e)
    {
      hide ValidConfig, Shaped, FinishedUpTo, DataOf, Addable, Full, Rem, Words, Disk, StartOf;
      AddingKeeps(cfg, View(), p, e);
      entries := entries[p := e];
      entryOrder := entryOrder + [p];
      if e.kind.File? {
        contents := contents[p := []];
        curFile := Some(p);
      }
    }

    /** Starts a regular file; its content comes through FileWrite under the same path. */
    method CreateFile(p: Path, attrs: Attrs) returns (r: Result)
      requires (closed || Valid()) && ValidAttrs(attrs)
      modifies this
      ensures old(closed) ==> r == ErrClosed && unchanged(this)
      ensures !old(closed) && r != ErrIO ==> r == Verdict(old(View()), p) && Valid()
      ensures !old(closed) && r == ErrIO ==> IoCause(cfg, capacity, old(contents), old(entryOrder))
      ensures !old(closed) && r != ErrIO ==>
                View() == if r == Ok then Creating(cfg, old(View()), p, Entry(attrs, File(0, [], 0)))
                    else Sealing(cfg, old(View()))
    {
      hide Streams, ValidPath, Sealing, Adding, ValidAttrs, IoCause;
      r := BeginEntry(p);
      if r != Ok {
        return;
      }
      SameKeys(cfg, old(View()));
      Record(p, Entry(attrs, File(outPos, [], 0)));
    }

    /** A directory. */
    method CreateDir(p: Path, attrs: Attrs) returns (r: Result)
      requires (closed || Valid()) && ValidAttrs(attrs)
      modifies this
      ensures old(closed) ==> r == ErrClosed && unchanged(this)
      ensures !old(closed) && r != ErrIO ==> r == Verdict(old(View()), p) && Valid()
      ensures !old(closed) && r == ErrIO ==> IoCause(cfg, capacity, old(contents), old(entryOrder))
      ensures !old(closed) && r != ErrIO ==>
                View() == if r == Ok then Creating(cfg, old(View()), p, Entry(attrs, Directory))
                    else Sealing(cfg, old(View()))
    {
      hide Streams, ValidPath, Sealing, Adding, ValidAttrs, IoCause;
      r := BeginEntry(p);
      if r != Ok {
        return;
      }
      SameKeys(cfg, old(View()));
      Record(p, Entry(attrs, Directory));
    }

    /** A named pipe. */
    method CreateFIFO(p: Path, attrs: Attrs) returns (r: Result)
      requires (closed || Valid()) && ValidAttrs(attrs)
      modifies this
      ensures old(closed) ==> r == ErrClosed && unchanged(this)
      ensures !old(closed) && r != ErrIO ==> r == Verdict(old(View()), p) && Valid()
      ensures !old(closed) && r == ErrIO ==> IoCause(cfg, capacity, old(contents), old(entryOrder))
      ensures !old(closed) && r != ErrIO ==>
                View() == if r == Ok then Creating(cfg, old(View()), p, Entry(attrs, Fifo))
                    else Sealing(cfg, old(View()))
    {
      hide Streams, ValidPath, Sealing, Adding, ValidAttrs, IoCause;
      r := BeginEntry(p);
      if r != Ok {
        return;
      }
      SameKeys(cfg, old(View()));
      Record(p, Entry(attrs, Fifo));
    }

    /** A socket. */
    method CreateSocket(p: Path, attrs: Attrs) returns (r: Result)
      requires (closed || Valid()) && ValidAttrs(attrs)
      modifies this
      ensures old(closed) ==> r == ErrClosed && unchanged(this)
      ensures !old(closed) && r != ErrIO ==> r == Verdict(old(View()), p) && Valid()
      ensures !old(closed) && r == ErrIO ==> IoCause(cfg, capacity, old(contents), old(entryOrder))
      ensures !old(closed) && r != ErrIO ==>
                View() == if r == Ok then Creating(cfg, old(View()), p, Entry(attrs, Socket))
                    else Sealing(cfg, old(View()))
    {
      hide Streams, ValidPath, Sealing, Adding, ValidAttrs, IoCause;
      r := BeginEntry(p);
      if r != Ok {
        return;
      }
      SameKeys(cfg, old(View()));
      Record(p, Entry(attrs, Socket));
    }

    /** A character device. */
    method CreateCharDevice(p: Path, attrs: Attrs, major: nat, minor: nat) returns (r: Result)
      requires (closed || Valid()) && ValidAttrs(attrs) && major <= MAX32 && minor <= MAX32
      modifies this
      ensures old(closed) ==> r == ErrClosed && unchanged(this)
      ensures !old(closed) && r != ErrIO ==> r == Verdict(old(View()), p) && Valid()
      ensures !old(closed) && r == ErrIO ==> IoCause(cfg, capacity, old(contents), old(entryOrder))
      ensures !old(closed) && r != ErrIO ==>
                View() == if r == Ok then Creating(cfg, old(View()), p, Entry(attrs, CharDev(major, minor)))
                    else Sealing(cfg, old(View()))
    {
      hide Streams, ValidPath, Sealing, Adding, ValidAttrs, IoCause;
      r := BeginEntry(p);
      if r != Ok {
        return;
      }
      SameKeys(cfg, old(View()));
      Record(p, Entry(attrs, CharDev(major, minor)));
    }

    /** A block device. */
    method CreateBlockDevice(p: Path, attrs: Attrs, major: nat, minor: nat) returns (r: Result)
      requires (closed || Valid()) && ValidAttrs(attrs) && major <= MAX32 && minor <= MAX32
      modifies this
      ensures old(closed) ==> r == ErrClosed && unchanged(this)
      ensures !old(closed) && r != ErrIO ==> r == Verdict(old(View()), p) && Valid()
      ensures !old(closed) && r == ErrIO ==> IoCause(cfg, capacity, old(contents), old(entryOrder))
      ensures !old(closed) && r != ErrIO ==>
                View() == if r == Ok then Creating(cfg, old(View()), p, Entry(attrs, BlockDev(major, minor)))
                    else Sealing(cfg, old(View()))
    {
      hide Streams, ValidPath, Sealing, Adding, ValidAttrs, IoCause;
      r := BeginEntry(p);
      if r != Ok {
        return;
      }
      SameKeys(cfg, old(View()));
      Record(p, Entry(attrs, BlockDev(major, minor)));
    }

    /** A symbolic link; an empty target is refused. */
    method CreateSymlink(p: Path, attrs: Attrs, target: seq<Byte>) returns (r: Result)
      requires (closed || Valid()) && ValidAttrs(attrs)
      modifies this
      ensures old(closed) ==> r == ErrClosed && unchanged(this)
      ensures !old(closed) && r != ErrIO ==> r == SymlinkVerdict(old(View()), p, target) && Valid()
      ensures !old(closed) && r == ErrIO ==> IoCause(cfg, capacity, old(contents), old(entryOrder))
      ensures !old(closed) && r != ErrIO ==>
                View() == if r == Ok then Creating(cfg, old(View()), p, Entry(attrs, Symlink(target)))
                    else Sealing(cfg, old(View()))
    {
      hide Streams, ValidPath, Sealing, Adding, ValidAttrs, IoCause;
      r := BeginEntry(p);
      if r != Ok {
        return;
      }
      if target == [] {
        return ErrSymlinkTarget;
      }
      SameKeys(cfg, old(View()));
      Record(p, Entry(attrs, Symlink(target)));
    }

    /** Another name for a regular file created before. */
    method CreateHardlink(p: Path, target: Path) returns (r: Result)
      requires closed || Valid()
      modifies this
      ensures old(closed) ==> r == ErrClosed && unchanged(this)
      ensures !old(closed) && r != ErrIO ==> r == HardlinkVerdict(old(View()), p, target) && Valid()
      ensures !old(closed) && r == ErrIO ==> IoCause(cfg, capacity, old(contents), old(entryOrder))
      ensures !old(closed) && r != ErrIO ==>
                View() == if r == Ok then Creating(cfg, old(View()), p, Entry(NO_ATTRS, Hardlink(target)))
                    else Sealing(cfg, old(View()))
    {
      hide Streams, ValidPath, Sealing, Adding, DataOf, Listed;
      if closed {
        return ErrClosed;
      }
      SameKeys(cfg, View());
      SealingSize(cfg, View());
      ListedOf(cfg, View());
      r := FlushCurFile();
      if r != Ok {
        return;
      }
      if !ValidPath(p) || !ValidPath(target) {
        return ErrInvalidPath;
      }
      if p in entries {
        return ErrDuplicate;
      }
      if target !in entries || !entries[target].kind.File? {
        return ErrHardlinkTarget;
      }
      FileHasContents(cfg, View(), target);
      Record(p, Entry(NO_ATTRS, Hardlink(target)));
    }

    /** Inside FileWrite: `s` is the view, except that the file's size is still the one before the call. */
    ghost predicate Writing(s: State, h: Path, size: nat)
      reads this
    {
      && !closed && SUPER_SIZE <= |out| == outPos <= capacity < LIMIT48
      && Streams(cfg, s) && Open(cfg, s) && s.cur == Some(h) && curFile == Some(h)
      && s.order == entryOrder && s.contents == contents && s.data == out[SUPER_SIZE..] && s.buf == buf
      && entries == Resized(s.entries, h, size)
    }

    /** Buffers a piece that fits the open block; a full block goes out. */
    method WriteChunk(q: seq<Byte>, h: Path, ghost s: State, ghost size: nat) returns (r: Result)
      requires Writing(s, h, size) && |buf| + |q| <= cfg.blockSize
      modifies this`out, this`outPos, this`entries, this`buf, this`contents
      ensures r == Ok || r == ErrIO
      ensures r == Ok ==> Writing(Pushing(cfg, s, q), h, size)
      ensures r == ErrIO ==> CanFail(cfg.codec) || SUPER_SIZE + |Pushing(cfg, s, q).data| > capacity
    {
      hide Store, SizeWord, ValidConfig, Shaped, FinishedUpTo, DataOf, Full, Rem, Words, Disk, StartOf;
      PushingKeeps(cfg, s, q);
      ghost var d := out[SUPER_SIZE..];
      buf := buf + q;
      contents := contents[h := contents[h] + q];
      r := Ok;
      if |buf| == cfg.blockSize {
        ghost var block := Store(cfg.codec, buf);
        r := EmitBlock();
        if r != Ok {
          return;
        }
        Behind(old(out), block.data);
      }
    }

    /** The io.Writer of the file created at `h`: appends to it for as long as it is the open file. */
    method FileWrite(h: Path, p: seq<Byte>) returns (r: Result, written: nat)
      requires closed || Valid()
      modifies this
      ensures old(curFile) != Some(h) ==> r == ErrStale && unchanged(this)
      ensures old(curFile) == Some(h) && old(closed) ==> r == ErrClosed && unchanged(this)
      ensures old(curFile) == Some(h) && !old(closed) ==> r == Ok || r == ErrIO
      ensures r == Ok ==>
              Valid() && written == |p| && h in old(contents) && contents == old(contents)[h := old(contents)[h] + p]
      ensures r == Ok ==> SameBut(old(View()), View(), h)
      ensures r == ErrIO ==>
              h in old(contents) && WriteCause(cfg, capacity, old(contents)[h := old(contents)[h] + p], entryOrder)
      ensures r == ErrIO ==> entryOrder == old(entryOrder)
    {
      hide Streams, Open, Pushing, Store, SizeWord, SameBut, OpenSize;
      written := 0;
      if curFile != Some(h) {
        return ErrStale, 0;
      }
      if closed {
        return ErrClosed, 0;
      }
      ghost var s0, s := View(), View();
      IsOpen(cfg, s);
      ghost var size := s.entries[h].kind.size;
      SameStart(s, h);
      var rest := p;
      assert contents[h] + [] == contents[h];
      while rest != []
        invariant Writing(s, h, size) && SameBut(s0, s, h) && entryOrder == s0.order
        invariant written <= |p| && rest == p[written..] && contents == s0.contents[h := s0.contents[h] + p[..written]]
        decreases |rest|
      {
        var need := cfg.blockSize - |buf|;
        var n := if |rest| > need then need else |rest|;
        BufferRoom(cfg, s);
        ChunkFacts(cfg, s0, s, h, p, written, n);
        r := WriteChunk(rest[..n], h, s, size);
        s := Pushing(cfg, s, rest[..n]);
        written := written + n;
        rest := rest[n..];
        if r != Ok {
          return;
        }
      }
      assert p[..written] == p;
      IsOpen(cfg, s);
      entries := entries[h := entries[h].(kind := entries[h].kind.(size := entries[h].kind.size + written))];
      assert entries == s.entries;
      r := Ok;
    }

    /** Tables, ID section, padding, and last the superblock over the placeholder. */
    method EmitTables(tab: Tabler, ids: Table, inodeCount: nat, modTime: nat, ghost m: Parts) returns (r: Result)
      requires SUPER_SIZE <= |out| == outPos <= capacity && out[SUPER_SIZE..] == m.data
      requires m == Parts(cfg, m.data, tab.t, ids.list, inodeCount, modTime) && TablesDone(tab, cfg.codec) &&
               ROOT in tab.t.pos
      modifies this`out, this`outPos
      ensures RoundTrip.HasRoot(m)
      ensures r == Ok ==> out == ImageOf(m) && BytesUsed(m) <= |out| <= capacity
      ensures r == ErrIO ==> |ImageOf(m)| > capacity || CanFail(cfg.codec)
      ensures r == Ok || r == ErrIO
    {
      hide Emit, Ints, Offsets, RefsOk, MetaWriter.Flushed, Frames, EncodeSuper, RootRef, BlockLog, AfterSuper, ImageOf,
        CanFail, Padding;
      RootFacts(tab, m);
      ImageLength(m);
      var inodeTableStart := outPos;
      r := EmitStream(tab.inodeMeta);
      if r != Ok {
        return;
      }
      var directoryTableStart := outPos;
      r := EmitStream(tab.dirMeta);
      if r != Ok {
        return;
      }
      var idTableStart;
      r, idTableStart := EmitIds(ids);
      if r != Ok {
        return;
      }
      var bytesUsed := outPos;
      r := Append(Padding(bytesUsed));
      if r != Ok {
        return;
      }
      var rootBlockByte := tab.inodeMeta.BlockByteOffset(tab.inodeRef[ROOT].blockIdx);
      var sb := Super(inodeCount, modTime, cfg.blockSize, 0, cfg.compressorId, BlockLog(cfg.blockSize), FLAGS,
                      |ids.list|,
                      rootBlockByte * 0x1_0000 + tab.inodeRef[ROOT].offset, bytesUsed, idTableStart, NO_TABLE,
                      inodeTableStart, directoryTableStart, NO_TABLE, NO_TABLE);
      assert sb == SuperOf(m);
      out := EncodeSuper(sb) + out[SUPER_SIZE..];
      ImageIs(m);
    }

    /** Appends a finalized metadata stream. */
    method EmitStream(meta: MetaWriter) returns (r: Result)
      requires SUPER_SIZE <= |out| == outPos <= capacity && meta.Flushed()
      modifies this`out, this`outPos
      ensures |out| == outPos <= capacity && (r == Ok || r == ErrIO)
      ensures var b := Emit(meta.comp, meta.content);
              && (r == Ok ==> |out| == old(|out|) + |b| && out[SUPER_SIZE..] == old(out[SUPER_SIZE..]) + b)
              && (r == ErrIO ==> old(|out|) + |b| > capacity)
    {
      hide Emit, Frames, Sealed;
      FullBlockSizes(meta.comp, meta.content);
      EmitIs(meta.comp, meta.content);
      var ok, b := meta.EmitTo();
      r := Append(b);
    }

    /** The ID section: data blocks, then the lookup list the superblock points at. */
    method EmitIds(ids: Table) returns (r: Result, idTableStart: nat)
      requires SUPER_SIZE <= |out| == outPos <= capacity
      modifies this`out, this`outPos
      ensures |out| == outPos <= capacity && (r == Ok || r == ErrIO)
      ensures var b := Emit(cfg.codec, Ints(ids.list, 4));
              var l := Ints(Offsets(cfg.codec, ids.list, old(outPos)), 8);
              && (r == Ok ==> |out| == old(|out|) + |b| + |l| && out[SUPER_SIZE..] == old(out[SUPER_SIZE..]) + b + l)
              && (r == Ok ==> idTableStart == old(|out|) + |b|)
              && (r == ErrIO ==> old(|out|) + |b| + |l| > capacity || CanFail(cfg.codec))
    {
      hide Emit, Ints, Offsets;
      idTableStart := 0;
      var ok, blockOffsets, b := ids.WriteData(cfg.codec, outPos);
      if !ok {
        return ErrIO, 0;
      }
      r := Append(b);
      if r != Ok {
        return;
      }
      idTableStart := outPos;
      b := ids.WriteLookup(blockOffsets);
      r := Append(b);
    }

    /** WriteOut, seen from behind the superblock. */
    method Append(b: seq<Byte>) returns (r: Result)
      requires SUPER_SIZE <= |out| == outPos <= capacity
      modifies this`out, this`outPos
      ensures |out| == outPos <= capacity && (r == Ok || r == ErrIO)
      ensures r == Ok ==> |out| == old(|out|) + |b| && out[SUPER_SIZE..] == old(out[SUPER_SIZE..]) + b
      ensures r == ErrIO ==> old(|out|) + |b| > capacity
    {
      r := WriteOut(b);
      if r == Ok { Behind(old(out), b); }
    }

    /** Finishes the image. On success the sink holds exactly the image of what was created, and a reader
        finds at every path what was created there. It fails only when the specification of Close does,
        when the compressor does, or when the sink is too small. */
    method Close() returns (r: Result)
      requires closed || (Valid() && |entryOrder| <= MAX_ENTRIES)
      modifies this
      ensures old(closed) ==> r == ErrClosed && unchanged(this)
      ensures !old(closed) ==> r in {Ok, ErrFormat, ErrIO} && var s := Sealing(cfg, old(View()));
              Listed(s.order) && CloseSpec(cfg, capacity, s, r, out)
      ensures r == Ok ==> closed
    {
      hide Streams, Sealing, Streaming.Closed, ClosedParts, Listed, BytesUsed, ImageOf, CanFail, Finalizable, OwnerSet,
        ImageTime, TablesDone, Lossless, Shows, ShortListings;
      if closed {
        return ErrClosed;
      }
      ListedOf(cfg, View());
      ghost var s := Sealing(cfg, View());
      SealingKeeps(cfg, View());
      ListedOf(cfg, s);
      r := FlushCurFile();
      if r != Ok {
        return;
      }
      closed := true;
      entries := entries[ROOT := RootEntry(cfg)];
      var ok, tab, ids := PrepareTables(cfg, entries, entryOrder, s);
      if !ok {
        return ErrFormat;
      }
      RootFresh(cfg, s);
      var inodeCount := Passes.TotalInodeCount(entries);
      var modTime := Passes.ImageMtime(cfg, entries, entryOrder);
      r := EmitTables(tab, ids, inodeCount, modTime, ClosedParts(cfg, s).value);
      if r == Ok && Lossless(cfg.codec) && ShortListings(cfg, s) {
        AllShown(cfg, s);
      }
    }
  }

  lemma OptionsValid(blockSize: bv32, codec: Codec, compressorId: nat, mtime: Time)
    requires BlockSizeOk(blockSize) && compressorId < 0x1_0000
    ensures ValidConfig(Config(codec, compressorId, blockSize as nat, mtime))
  {
    hide BlockSizeOk, Pow2;
    BlockSizeExact(blockSize);
  }

  /** The options checked, then a writer over an empty sink. */
  method NewWriter(blockSize: bv32, codec: Option<Codec>, compressorId: nat, mtime: Time, capacity: nat)
    returns (r: Result, w: Writer?)
    requires capacity < LIMIT48 && compressorId < 0x1_0000
    ensures w != null <==> r == Ok
    ensures r == ErrOption <==> !BlockSizeOk(blockSize) || codec.None?
    ensures r == ErrIO <==> BlockSizeOk(blockSize) && codec.Some? && capacity < SUPER_SIZE
    ensures r in {Ok, ErrOption, ErrIO}
    ensures r == Ok ==>
              && fresh(w) && w.Valid() && w.capacity == capacity
              && w.cfg == Config(codec.value, compressorId, blockSize as nat, mtime)
              && w.View() == State(map[], [], map[], [], None, []) && DecodeSuper(w.out) == None
  {
    hide Streams, DecodeSuper, BlockSizeOk, ValidConfig;
    w := null;
    if !BlockSizeOk(blockSize) || codec.None? {
      return ErrOption, null;
    }
    if capacity < SUPER_SIZE {
      return ErrIO, null;
    }
    OptionsValid(blockSize, codec.value, compressorId, mtime);
    w := new Writer(Config(codec.value, compressorId, blockSize as nat, mtime), capacity);
    r := Ok;
  }

  /** What is at `p` in the image is what was created there, if anything was. */
  ghost predicate Shows(cfg: Config, img: seq<Byte>, s: State, p: Path)
    requires Listed(s.order) && IdsOf(WithRoot(cfg, s.entries), s.order).Some?
  {
    && Reader.StatPath(cfg.codec, img, p) == ImageTheorem.StatFor(ContextOf(cfg, s), s.contents, p)
    && (Reader.StatPath(cfg.codec, img, p).Some? <==> p == ROOT || p in s.order)
  }

  /** The outcome of closing a writer whose sealed state is `s`. */
  ghost predicate CloseSpec(cfg: Config, capacity: nat, s: State, r: Result, out: seq<Byte>)
    requires Listed(s.order)
  {
    && (r == Ok ==>
          && ClosedParts(cfg, s).Some? && RoundTrip.HasRoot(ClosedParts(cfg, s).value)
          && out == ImageOf(ClosedParts(cfg, s).value) && |out| <= capacity
          && (Lossless(cfg.codec) && ShortListings(cfg, s) ==> forall p :: Shows(cfg, out, s, p)))
    && (r == ErrFormat ==> ClosedParts(cfg, s) == None || CanFail(cfg.codec))
    && (r == ErrIO ==>
          || CanFail(cfg.codec)
          || SUPER_SIZE + |s.data| > capacity
          || (ClosedParts(cfg, s).Some? && RoundTrip.HasRoot(ClosedParts(cfg, s).value) &&
              |ImageOf(ClosedParts(cfg, s).value)| > capacity))
  }

  lemma ListedOf(cfg: Config, s: State)
    requires Streams(cfg, s)
    ensures Listed(s.order) && cfg.blockSize > 0
  {
  }

  lemma AllShown(cfg: Config, s: State)
    requires Accepted(cfg, s) && BytesUsed(ClosedParts(cfg, s).value) < LIMIT48
    ensures RoundTrip.HasRoot(ClosedParts(cfg, s).value)
    ensures forall p :: Shows(cfg, ImageOf(ClosedParts(cfg, s).value), s, p)
  {
    hide ClosedParts, BytesUsed, ImageOf, ContextOf, ImageTheorem.StatFor, Reader.StatPath, Streams, Streaming.Closed,
      Listed, TreeOk, Lossless;
    WrittenImageReads(cfg, s, ROOT);
    forall p ensures Shows(cfg, ImageOf(ClosedParts(cfg, s).value), s, p) {
      WrittenImageReads(cfg, s, p);
    }
  }

  lemma RootFresh(cfg: Config, s: State)
    requires Finalizable(cfg, s)
    ensures var es := WithRoot(cfg, s.entries);
            (forall p :: p in es <==> p == ROOT || p in s.order) && es[ROOT].attrs.mtime == cfg.mtime &&
                ROOT !in s.order
  {
    hide Streaming.Closed, TreeOk, IdsOf;
    RootNotListed(s.order);
    WithRootShaped(cfg, s);
  }

  /** `entries` with the recorded size of file `h` set to `size`. */
  ghost function Resized(entries: map<Path, Entry>, h: Path, size: nat): map<Path, Entry> {
    if h in entries && entries[h].kind.File? then entries[h := entries[h].(kind := entries[h].kind.(size := size))]
        else entries
  }

  /** Only what is recorded about the file `h` differs. */
  ghost predicate SameBut(s: State, s': State, h: Path) {
    && s'.order == s.order && s'.cur == s.cur
    && (forall q :: q in s'.entries <==> q in s.entries)
    && forall q :: q in s.entries ==>
       q in s'.entries && s'.entries[q].attrs == s.entries[q].attrs && (q != h ==> s'.entries[q] == s.entries[q])
  }

  lemma SameStart(s: State, h: Path)
    requires h in s.entries && s.entries[h].kind.File?
    ensures SameBut(s, s, h) && Resized(s.entries, h, s.entries[h].kind.size) == s.entries
  {
  }

  lemma IsOpen(cfg: Config, s: State)
    requires Streams(cfg, s) && s.cur.Some?
    ensures Open(cfg, s) && s.cur.value in s.entries && s.entries[s.cur.value].kind.File? && s.cur.value in s.contents
    ensures s.entries[s.cur.value].kind.size == |s.contents[s.cur.value]|
  {
  }

  /** Halfway through a write, no more data is out than there will be after all of it. */
  lemma WriteWithin(cfg: Config, s0: State, s: State, h: Path, p: seq<Byte>, written: nat)
    requires Streams(cfg, s) && Open(cfg, s) && s.cur == Some(h) && h in s0.contents && written <= |p|
    requires s.order == s0.order && s.contents == s0.contents[h := s0.contents[h] + p[..written]]
    ensures WriteSize(cfg, s0, h, p).Some? && |s.data| <= WriteSize(cfg, s0, h, p).value
  {
    hide Streams, OpenSize, FinishedUpTo, Full, Rem, Words, Disk, DataOf;
    OpenData(cfg, s);
    ListedOf(cfg, s);
    OpenGrows(cfg, s.contents, s.order, p[written..]);
    Assoc(s0.contents[h], p[..written], p[written..]);
    assert p[..written] + p[written..] == p;
    assert s.contents[h := s.contents[h] + p[written..]] == s0.contents[h := s0.contents[h] + p];
  }

  /** The data there is once all of `p` is written to the open file `h`. */
  ghost function WriteSize(cfg: Config, s: State, h: Path, p: seq<Byte>): Option<nat> {
    if cfg.blockSize == 0 || s.order == [] || s.order[|s.order| - 1] != h || h !in s.contents then None else
    Some(OpenSize(cfg, s.contents[h := s.contents[h] + p], s.order))
  }

  /** One more piece of a write. */
  lemma ChunkFacts(cfg: Config, s0: State, s: State, h: Path, p: seq<Byte>, written: nat, n: nat)
    requires Streams(cfg, s) && Open(cfg, s) && s.cur == Some(h) && h in s0.contents && written + n <= |p|
    requires SameBut(s0, s, h) && s.contents == s0.contents[h := s0.contents[h] + p[..written]] &&
             |s.buf| + n <= cfg.blockSize
    ensures var q := p[written..][..n];
            && s.cur.value in s.entries && s.cur.value in s.contents && s.entries[s.cur.value].kind.File?
            && var t := Pushing(cfg, s, q);
            && SameBut(s0, t, h) && t.contents == s0.contents[h := s0.contents[h] + p[..written + n]]
            && WriteSize(cfg, s0, h, p).Some? && |t.data| <= WriteSize(cfg, s0, h, p).value
  {
    hide Streams, Pushing, SameBut, WriteSize, Full, Rem, Words, Disk, DataOf, FinishedUpTo, StartOf;
    var q := p[written..][..n];
    IsOpen(cfg, s);
    PushingFrame(cfg, s0, s, h, q);
    PushingKeeps(cfg, s, q);
    assert q == p[written..written + n];
    Assoc(s0.contents[h], p[..written], q);
    assert p[..written + n] == p[..written] + q;
    SameOrder(s0, s, h);
    assert s.contents[h := s.contents[h] + q] == s0.contents[h := s0.contents[h] + p[..written + n]];
    SameOrder(s0, Pushing(cfg, s, q), h);
    WriteWithin(cfg, s0, Pushing(cfg, s, q), h, p, written + n);
  }

  lemma SameOrder(s: State, s': State, h: Path)
    requires SameBut(s, s', h)
    ensures s'.order == s.order && s'.cur == s.cur
  {
  }

  lemma BufferRoom(cfg: Config, s: State)
    requires Streams(cfg, s) && Open(cfg, s)
    ensures |s.buf| < cfg.blockSize
  {
  }

  lemma PushingFrame(cfg: Config, s0: State, s: State, h: Path, q: seq<Byte>)
    requires SameBut(s0, s, h) && s.cur == Some(h) && h in s.entries && h in s.contents && s.entries[h].kind.File?
    ensures SameBut(s0, Pushing(cfg, s, q), h) && Pushing(cfg, s, q).contents == s.contents[h := s.contents[h] + q]
  {
  }

  /** Sealing changes no one's existence. */
  lemma SameKeys(cfg: Config, s: State)
    requires Streams(cfg, s)
    ensures forall p :: p in Sealing(cfg, s).entries <==> p in s.entries
    ensures forall p :: p in s.entries ==> (Sealing(cfg, s).entries[p].kind.File? <==> s.entries[p].kind.File?)
  {
  }

  lemma FileHasContents(cfg: Config, s: State, p: Path)
    requires Streams(cfg, s) && p in s.entries && s.entries[p].kind.File?
    ensures p in s.contents
  {
    assert ShapedAt(s, p);
  }

  /** The root's reference, resolved in the flushed stream, is the one the superblock quotes. */
  lemma RootFacts(tab: Tabler, m: Parts)
    requires TablesDone(tab, m.cfg.codec) && m.t == tab.t && ROOT in tab.t.pos
    ensures RoundTrip.HasRoot(m) && ROOT in tab.inodeRef
    ensures var ref := tab.inodeRef[ROOT];
            && ref.blockIdx <= |tab.inodeMeta.blocks|
            && |Frames(tab.inodeMeta.blocks[..ref.blockIdx])| * 0x1_0000 + ref.offset == RootRef(m)
  {
    hide Frames, Full, Sealed, BlockOf, OffsetOf;
    FlushedRef(m.cfg.codec, m.t.inodes, m.t.pos[ROOT]);
  }

  lemma ImageLength(m: Parts)
    requires RoundTrip.HasRoot(m)
    ensures |ImageOf(m)| == BytesUsed(m) + |Padding(BytesUsed(m))|
  {
    hide EncodeSuper, Padding, LookupBytes, Emit;
  }

  lemma ImageIs(m: Parts)
    requires RoundTrip.HasRoot(m)
    ensures ImageOf(m) ==
            EncodeSuper(SuperOf(m)) +
            (m.data + InodeBytes(m) + DirBytes(m) + IdBytes(m) + LookupBytes(m) + Padding(BytesUsed(m)))
  {
  }

  lemma Behind(out: seq<Byte>, b: seq<Byte>)
    requires |out| >= SUPER_SIZE
    ensures (out + b)[SUPER_SIZE..] == out[SUPER_SIZE..] + b
  {
  }

  lemma {:induction false} ZeroLE(s: seq<Byte>)
    requires forall i :: 0 <= i < |s| ==> s[i] == 0
    ensures FromLE(s) == 0
  {
    if s != [] { ZeroLE(s[1..]); }
  }

  lemma NoMagic(img: seq<Byte>)
    requires |img| >= SUPER_SIZE && forall i :: 0 <= i < SUPER_SIZE ==> img[i] == 0
    ensures DecodeSuper(img) == None
  {
    hide Pow2;
    var a := UnInts(img, 4, 5);
    assert a[0] == FromLE(img[..4]);
    ZeroLE(img[..4]);
  }
}

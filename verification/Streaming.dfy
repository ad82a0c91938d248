/** What the streaming phase keeps true between calls: the entries, the file being written, its
    open block, and the bytes already in the image. */
module Streaming {
  import opened Bytes
  import opened Blocks
  import opened FileData
  import opened Paths
  import opened Tree
  import opened Entries
  import opened Image
  import opened Region

  /** The writer's fields, with everything written to each file so far. `cur` is the file that is
      still open, `buf` its bytes after the last emitted block. */
  datatype State = State(entries: map<Path, Entry>, order: seq<Path>, contents: map<Path, seq<Byte>>,
                         data: seq<Byte>, cur: Option<Path>, buf: seq<Byte>)

  /** One path: it has an entry if it is listed, and contents if it is a file; a hardlink names a file. */
  ghost predicate ShapedAt(s: State, p: Path) {
    && (p in s.entries <==> p in s.order)
    && (p in s.contents <==> p in s.entries && s.entries[p].kind.File?)
    && (p in s.entries && s.entries[p].kind.Hardlink? ==> s.entries[p].kind.link in s.contents)
    && (p in s.entries ==> ValidAttrs(s.entries[p].attrs) && (s.entries[p].kind.File? || ValidKind(s.entries[p].kind)))
  }

  ghost predicate Shaped(s: State) {
    Listed(s.order) && forall p :: ShapedAt(s, p)
  }

  /** What streaming records about the finished file at position `i`. */
  function Finished(cfg: Config, contents: map<Path, seq<Byte>>, order: seq<Path>, i: nat): Kind
    requires cfg.blockSize > 0 && i < |order| && order[i] in contents
  {
    var s := contents[order[i]];
    File(SUPER_SIZE + StartOf(cfg.codec, cfg.blockSize, contents, order, i), Words(Sealed(cfg.codec, cfg.blockSize, s)),
         |s|)
  }

  /** The first `k` paths are finished. */
  ghost predicate FinishedUpTo(cfg: Config, s: State, k: nat)
    requires cfg.blockSize > 0
  {
    k <= |s.order| && forall i :: 0 <= i < k && s.order[i] in s.contents ==>
      s.order[i] in s.entries && s.entries[s.order[i]].kind == Finished(cfg, s.contents, s.order, i)
  }

  /** No file is open: the data region is all extents. */
  ghost predicate Closed(cfg: Config, s: State)
    requires cfg.blockSize > 0
  {
    && s.cur.None? && s.buf == []
    && FinishedUpTo(cfg, s, |s.order|)
    && s.data == DataOf(cfg.codec, cfg.blockSize, s.contents, s.order)
  }

  /** The last created path is an open file: its full blocks are emitted, the rest is buffered. */
  ghost predicate Open(cfg: Config, s: State)
    requires cfg.blockSize > 0
  {
    && s.order != []
    && var k := |s.order| - 1;
    && var p := s.order[k];
    && s.cur == Some(p) && p in s.contents && p in s.entries
    && var c, n := cfg.codec, cfg.blockSize;
    && s.buf == Rem(n, s.contents[p])
    && s.entries[p].kind == File(SUPER_SIZE + StartOf(c, n, s.contents, s.order, k), Words(Full(c, n, s.contents[p])),
                                 |s.contents[p]|)
    && FinishedUpTo(cfg, s, k)
    && s.data == DataOf(c, n, s.contents, s.order[..k]) + Disk(Full(c, n, s.contents[p]))
  }

  ghost predicate Streams(cfg: Config, s: State) {
    ValidConfig(cfg) && cfg.blockSize > 0 && Shaped(s) && (Closed(cfg, s) || Open(cfg, s))
  }

  // ---------------------------------------------------------------- sealing the open file

  /** The state after the tail block, if any, is emitted and the file is closed. */
  function Sealing(cfg: Config, s: State): State
    requires cfg.blockSize > 0
  {
    if s.cur.None? || s.cur.value !in s.entries || !s.entries[s.cur.value].kind.File? then s else
    var e := s.entries[s.cur.value];
    if s.buf == [] then s.(cur := None) else
    var b := Store(cfg.codec, s.buf);
    s.(entries := s.entries[s.cur.value := e.(kind := e.kind.(words := e.kind.words + [SizeWord(b)]))],
       data := s.data + b.data, cur := None, buf := [])
  }

  lemma SealedIs(c: Codec, n: nat, s: seq<Byte>)
    requires n > 0
    ensures Rem(n, s) == [] ==>
            Words(Sealed(c, n, s)) == Words(Full(c, n, s)) && Disk(Sealed(c, n, s)) == Disk(Full(c, n, s))
    ensures Rem(n, s) != [] ==>
              && Words(Sealed(c, n, s)) == Words(Full(c, n, s)) + [SizeWord(Store(c, Rem(n, s)))]
              && Disk(Sealed(c, n, s)) == Disk(Full(c, n, s)) + Store(c, Rem(n, s)).data
  {
    hide Full, Rem, Store;
    if Rem(n, s) == [] {
      assert Full(c, n, s) + [] == Full(c, n, s);
    } else {
      WordsPush(Full(c, n, s), Store(c, Rem(n, s)));
    }
  }

  /** Recording something about a file changes nothing else. */
  lemma ShapedUpdate(s: State, p: Path, k: Kind, s': State)
    requires Shaped(s) && p in s.contents && p in s.entries && k.File?
    requires s'.entries == s.entries[p := s.entries[p].(kind := k)] && s'.order == s.order &&
             s'.contents.Keys == s.contents.Keys
    ensures Shaped(s')
  {
    hide Listed, ValidKind, ValidAttrs;
    assert ShapedAt(s, p);
    forall q ensures ShapedAt(s', q) {
      assert ShapedAt(s, q);
      assert q in s'.contents <==> q in s'.contents.Keys;
      if q in s.entries && s.entries[q].kind.Hardlink? {
        assert s.entries[q].kind.link in s'.contents.Keys;
      }
    }
  }

  lemma FinishedStep(cfg: Config, s: State, s': State, k: nat)
    requires cfg.blockSize > 0 && Listed(s.order) && k < |s.order| && FinishedUpTo(cfg, s, k)
    requires s'.order == s.order && s'.contents == s.contents
    requires forall q :: q in s.entries && q != s.order[k] ==> q in s'.entries && s'.entries[q] == s.entries[q]
    requires s.order[k] in s.contents ==>
             s.order[k] in s'.entries && s'.entries[s.order[k]].kind == Finished(cfg, s.contents, s.order, k)
    ensures FinishedUpTo(cfg, s', k + 1)
  {
    hide Finished;
  }

  lemma SealingData(cfg: Config, s: State)
    requires cfg.blockSize > 0 && Open(cfg, s)
    ensures Sealing(cfg, s).data == DataOf(cfg.codec, cfg.blockSize, s.contents, s.order)
  {
    hide FinishedUpTo, Full, Rem, Sealed, Words, Disk, Store, SizeWord, StartOf, DataOf;
    var k := |s.order| - 1;
    var p, c, n := s.order[k], cfg.codec, cfg.blockSize;
    SealedIs(c, n, s.contents[p]);
    assert s.order == s.order[..k] + [p];
    DataPush(c, n, s.contents, s.order[..k], p);
    Assoc(DataOf(c, n, s.contents, s.order[..k]), Disk(Full(c, n, s.contents[p])), Store(c, s.buf).data);
  }

  /** Sealing finishes the open file: between files the data region is exactly all extents. */
  lemma SealingKeeps(cfg: Config, s: State)
    requires Streams(cfg, s)
    ensures var s' := Sealing(cfg, s);
            && Streams(cfg, s') && Closed(cfg, s') && s'.order == s.order && s'.contents == s.contents
            && forall p :: p in s.entries <==> p in s'.entries
  {
    hide ValidConfig, Listed, Full, Rem, Sealed, Words, Disk, Store, SizeWord, StartOf, DataOf, Shaped, FinishedUpTo;
    if Open(cfg, s) {
      var k := |s.order| - 1;
      var p := s.order[k];
      var s' := Sealing(cfg, s);
      SealedIs(cfg.codec, cfg.blockSize, s.contents[p]);
      SealingData(cfg, s);
      ShapedUpdate(s, p, s'.entries[p].kind, s');
      FinishedStep(cfg, s, s', k) by {
        ShapedListed(s);
      }
    }
  }

  lemma ShapedListed(s: State)
    requires Shaped(s)
    ensures Listed(s.order)
  {
  }

  // ---------------------------------------------------------------- adding an entry

  /** A new last path, with empty contents if it is a file. */
  function Adding(s: State, p: Path, e: Entry): State {
    s.(entries := s.entries[p := e], order := s.order + [p],
       contents := if e.kind.File? then s.contents[p := []] else s.contents,
       cur := if e.kind.File? then Some(p) else s.cur)
  }

  ghost predicate Addable(s: State, p: Path, e: Entry) {
    && ValidPath(p) && p !in s.entries && ValidAttrs(e.attrs)
    && (if e.kind.File? then e.kind == File(SUPER_SIZE + |s.data|, [], 0) else ValidKind(e.kind))
    && (e.kind.Hardlink? ==> e.kind.link in s.contents)
  }

  /** A Create call: seal the open file, then add the entry; a new file starts where the data region ends. */
  function Creating(cfg: Config, s: State, p: Path, e: Entry): State
    requires cfg.blockSize > 0
  {
    var s1 := Sealing(cfg, s);
    Adding(s1, p, if e.kind.File? then e.(kind := File(SUPER_SIZE + |s1.data|, [], 0)) else e)
  }

  lemma AddingShaped(s: State, p: Path, e: Entry)
    requires Shaped(s) && Addable(s, p, e)
    ensures Shaped(Adding(s, p, e))
  {
    hide ValidKind, ValidAttrs;
    assert ShapedAt(s, p);
    var s' := Adding(s, p, e);
    assert Listed(s'.order) by {
      hide ValidPath;
      forall i | 0 <= i < |s.order| ensures s.order[i] != p { assert s.order[i] in s.order; }
    }
    forall q ensures ShapedAt(s', q) {
      assert ShapedAt(s, q);
    }
  }

  /** Starts of earlier extents do not move. */
  lemma FinishedExtend(cfg: Config, s: State, s': State, p: Path)
    requires cfg.blockSize > 0 && FinishedUpTo(cfg, s, |s.order|) && p !in s.order
    requires s'.order == s.order + [p]
    requires forall q :: q != p ==> (q in s.entries ==> q in s'.entries && s'.entries[q] == s.entries[q])
    requires forall q :: q != p ==>
             (q in s.contents <==> q in s'.contents) && (q in s.contents ==> s'.contents[q] == s.contents[q])
    ensures FinishedUpTo(cfg, s', |s.order|)
    ensures DataOf(cfg.codec, cfg.blockSize, s'.contents, s'.order[..|s.order|])
            == DataOf(cfg.codec, cfg.blockSize, s.contents, s.order)
  {
    hide DataOf, Words, Sealed;
    var c, n := cfg.codec, cfg.blockSize;
    assert s'.order[..|s.order|] == s.order;
    DataSame(c, n, s'.contents, s.contents, s.order);
    forall i | 0 <= i < |s.order| && s'.order[i] in s'.contents
      ensures s'.order[i] in s'.entries && s'.entries[s'.order[i]].kind == Finished(cfg, s'.contents, s'.order, i)
    {
      assert s.order[i] in s.order;
      assert s'.order[..i] == s.order[..i];
      forall q | q in s.order[..i] ensures q != p { assert q in s.order; }
      DataSame(c, n, s'.contents, s.contents, s.order[..i]);
    }
  }

  lemma AddingKeeps(cfg: Config, s: State, p: Path, e: Entry)
    requires Streams(cfg, s) && Closed(cfg, s) && Addable(s, p, e)
    ensures Streams(cfg, Adding(s, p, e))
  {
    hide ValidConfig, ValidPath, ValidKind, ValidAttrs, DataOf, Words, Disk, Full, Rem, Sealed, Listed, Finished;
    var s', n := Adding(s, p, e), cfg.blockSize;
    var k := |s.order|;
    AddingShaped(s, p, e);
    assert ShapedAt(s, p);
    FinishedExtend(cfg, s, s', p);
    NoBlocks(cfg.codec, n);
    assert s'.order[..k] == s.order && s'.order[k] == p;
    if e.kind.File? {
      assert s'.data == DataOf(cfg.codec, n, s'.contents, s'.order[..k]) + [];
      assert Open(cfg, s');
    } else {
      DataPush(cfg.codec, n, s'.contents, s.order, p);
      assert s'.data == DataOf(cfg.codec, n, s'.contents, s'.order);
      assert Closed(cfg, s');
    }
  }

  lemma NoBlocks(c: Codec, n: nat)
    requires n > 0
    ensures Full(c, n, []) == [] && Rem(n, []) == [] && Words([]) == [] && Disk([]) == []
  {
  }

  // ---------------------------------------------------------------- writing to the open file

  /** The open file grows by `q`, no more than its block has room for; a full block is emitted. */
  function Pushing(cfg: Config, s: State, q: seq<Byte>): State
    requires s.cur.Some? && s.cur.value in s.entries && s.cur.value in s.contents && s.entries[s.cur.value].kind.File?
  {
    var p := s.cur.value;
    var e, t := s.entries[p], s.contents[p] + q;
    var k := e.kind.(size := |t|);
    var s1 := s.(contents := s.contents[p := t], buf := s.buf + q);
    if |s.buf + q| < cfg.blockSize then s1.(entries := s.entries[p := e.(kind := k)]) else
    var b := Store(cfg.codec, s.buf + q);
    s1.(entries := s.entries[p := e.(kind := k.(words := k.words + [SizeWord(b)]))], data := s.data + b.data, buf := [])
  }

  lemma GrowFile(c: Codec, n: nat, s: seq<Byte>, q: seq<Byte>)
    requires n > 0 && |Rem(n, s)| + |q| <= n
    ensures |Rem(n, s)| + |q| < n ==> Full(c, n, s + q) == Full(c, n, s) && Rem(n, s + q) == Rem(n, s) + q
    ensures |Rem(n, s)| + |q| == n ==>
              Full(c, n, s + q) == Full(c, n, s) + [Store(c, Rem(n, s) + q)] && Rem(n, s + q) == []
  {
    hide Store;
    Grow(c, n, s, q);
    var r := Rem(n, s) + q;
    if |r| < n {
      assert Full(c, n, r) == [];
    } else {
      assert r[..n] == r && r[n..] == [];
      assert Full(c, n, []) == [];
      assert Full(c, n, r) == [Store(c, r)];
    }
  }

  lemma PushingKeeps(cfg: Config, s: State, q: seq<Byte>)
    requires Streams(cfg, s) && Open(cfg, s) && |s.buf| + |q| <= cfg.blockSize
    ensures Streams(cfg, Pushing(cfg, s, q)) && Open(cfg, Pushing(cfg, s, q))
  {
    hide ValidConfig, Listed, Full, Rem, Sealed, Words, Disk, Store, SizeWord, DataOf, Shaped, FinishedUpTo;
    var k := |s.order| - 1;
    var p, c, n := s.order[k], cfg.codec, cfg.blockSize;
    var s' := Pushing(cfg, s, q);
    GrowFile(c, n, s.contents[p], q);
    WordsPush(Full(c, n, s.contents[p]), Store(c, s.buf + q));
    assert s'.contents.Keys == s.contents.Keys;
    ShapedUpdate(s, p, s'.entries[p].kind, s');
    ShapedListed(s);
    FinishedBefore(cfg, s, s', k);
    Assoc(DataOf(c, n, s.contents, s.order[..k]), Disk(Full(c, n, s.contents[p])), Store(c, s.buf + q).data);
  }

  lemma LastDistinct(order: seq<Path>)
    requires Listed(order) && order != []
    ensures forall i :: 0 <= i < |order| - 1 ==> order[i] != order[|order| - 1]
  {
  }

  /** Writing to the last file leaves the earlier ones alone. */
  lemma FinishedBefore(cfg: Config, s: State, s': State, k: nat)
    requires cfg.blockSize > 0 && Listed(s.order) && k + 1 == |s.order| && FinishedUpTo(cfg, s, k)
    requires s'.order == s.order
    requires forall q :: q != s.order[k] ==> (q in s.entries ==> q in s'.entries && s'.entries[q] == s.entries[q])
    requires forall q :: q != s.order[k] ==>
             (q in s.contents <==> q in s'.contents) && (q in s.contents ==> s'.contents[q] == s.contents[q])
    ensures FinishedUpTo(cfg, s', k)
    ensures DataOf(cfg.codec, cfg.blockSize, s'.contents, s'.order[..k])
            == DataOf(cfg.codec, cfg.blockSize, s.contents, s.order[..k])
  {
    hide DataOf, Words, Sealed, ValidPath;
    var c, n := cfg.codec, cfg.blockSize;
    LastDistinct(s.order);
    DataSame(c, n, s'.contents, s.contents, s.order[..k]);
    forall i | 0 <= i < k && s'.order[i] in s'.contents
      ensures s'.order[i] in s'.entries && s'.entries[s'.order[i]].kind == Finished(cfg, s'.contents, s'.order, i)
    {
      DataSame(c, n, s'.contents, s.contents, s.order[..i]);
    }
  }

  // ---------------------------------------------------------------- how much data there will be

  /** The data region once every file is sealed. */
  function DataSize(cfg: Config, contents: map<Path, seq<Byte>>, order: seq<Path>): nat
    requires cfg.blockSize > 0
  {
    |DataOf(cfg.codec, cfg.blockSize, contents, order)|
  }

  lemma SealingSize(cfg: Config, s: State)
    requires Streams(cfg, s)
    ensures |Sealing(cfg, s).data| == DataSize(cfg, s.contents, s.order)
  {
    hide Sealing, DataOf, FinishedUpTo, Shaped;
    SealingKeeps(cfg, s);
  }

  /** The data region while the last of `order` is open: only its full blocks are out. */
  function OpenSize(cfg: Config, contents: map<Path, seq<Byte>>, order: seq<Path>): nat
    requires cfg.blockSize > 0 && order != [] && order[|order| - 1] in contents
  {
    var k, c, n := |order| - 1, cfg.codec, cfg.blockSize;
    |DataOf(c, n, contents, order[..k])| + |Disk(Full(c, n, contents[order[k]]))|
  }

  lemma OpenData(cfg: Config, s: State)
    requires Streams(cfg, s) && Open(cfg, s)
    ensures |s.data| == OpenSize(cfg, s.contents, s.order)
  {
    hide DataOf, Disk, Full, FinishedUpTo, ValidConfig, Rem, Words, Shaped;
  }

  /** Emitted blocks stay emitted. */
  lemma EmittedStays(c: Codec, n: nat, s: seq<Byte>, q: seq<Byte>)
    requires n > 0
    ensures |Disk(Full(c, n, s))| <= |Disk(Full(c, n, s + q))|
  {
    hide Full, Rem, Store, Disk;
    Grow(c, n, s, q);
    DiskAppend(Full(c, n, s), Full(c, n, Rem(n, s) + q));
  }

  /** Writing more leaves no less data. */
  lemma OpenGrows(cfg: Config, contents: map<Path, seq<Byte>>, order: seq<Path>, q: seq<Byte>)
    requires cfg.blockSize > 0 && Listed(order) && order != [] && order[|order| - 1] in contents
    ensures var p := order[|order| - 1];
            OpenSize(cfg, contents, order) <= OpenSize(cfg, contents[p := contents[p] + q], order)
  {
    hide DataOf, Disk, Full;
    var k, c, n := |order| - 1, cfg.codec, cfg.blockSize;
    var p := order[k];
    LastDistinct(order);
    DataSame(c, n, contents[p := contents[p] + q], contents, order[..k]);
    EmittedStays(c, n, contents[p], q);
  }

  /** Sealing the last file takes no data away. */
  lemma OpenBelow(cfg: Config, contents: map<Path, seq<Byte>>, order: seq<Path>)
    requires cfg.blockSize > 0 && order != [] && order[|order| - 1] in contents
    ensures OpenSize(cfg, contents, order) <= DataSize(cfg, contents, order)
  {
    hide DataOf, Disk, Full, Rem, Sealed, Words;
    var k, c, n := |order| - 1, cfg.codec, cfg.blockSize;
    assert order == order[..k] + [order[k]];
    DataPush(c, n, contents, order[..k], order[k]);
    SealedIs(c, n, contents[order[k]]);
  }
}

/** Closing an image as a function of what was created: numbers, link counts, ID indices, tables,
    superblock. The image depends on nothing else. */
module Finalize {
  import opened Bytes
  import opened Paths
  import opened Tree
  import opened Numbering
  import opened IdTable
  import opened Entries
  import opened Layout
  import opened Image
  import opened Streaming

  /** Inode numbers and link counts are 32 bits wide. */
  const MAX_ENTRIES: nat := 0xFFFF_FFFC

  /** A directory with more children than this could overflow the 32-bit length of its listing. */
  const MAX_CHILDREN: nat := 0xE0_0000

  ghost predicate SmallDirs(order: seq<Path>) {
    forall d :: |Kids(order, d)| <= MAX_CHILDREN
  }

  /** The root directory the writer adds: mode 0755, owned by root. */
  function RootEntry(cfg: Config): Entry {
    Entry(Attrs(0x1ED, 0, 0, cfg.mtime), Directory)
  }

  function WithRoot(cfg: Config, entries: map<Path, Entry>): map<Path, Entry> {
    entries[ROOT := RootEntry(cfg)]
  }

  /** Every entry's parent was created, as a directory. */
  predicate TreeOk(entries: map<Path, Entry>, order: seq<Path>) {
    forall i :: 0 <= i < |order| ==>
      order[i] != [] && order[i][0] == SLASH && Dir(order[i]) in entries && entries[Dir(order[i])].kind.Directory?
  }

  function Links(entries: map<Path, Entry>): set<Path> {
    set p | p in entries && entries[p].kind.Hardlink?
  }

  function Numbers(order: seq<Path>, links: set<Path>): map<Path, nat>
    requires Listed(order)
  {
    map p | p in Owners(Whole(order), links) :: Number(order, links, p)
  }

  /** A directory's parent number; the root is its own parent. */
  function Parents(order: seq<Path>, links: set<Path>): map<Path, nat>
    requires Listed(order)
  {
    map p | p in Owners(Whole(order), links) ::
      if p == ROOT || p == [] || p[0] != SLASH || Dir(p) !in Owners(Whole(order), links) then 1
          else Number(order, links, Dir(p))
  }

  function CountDirs(entries: map<Path, Entry>, cs: seq<Path>): (n: nat)
    ensures n <= |cs|
  {
    if cs == [] then 0 else
    (if cs[0] in entries && entries[cs[0]].kind.Directory? then 1 else 0) + CountDirs(entries, cs[1..])
  }

  /** Directories count two plus their subdirectories; everything else one. */
  function LinkCount(entries: map<Path, Entry>, order: seq<Path>, p: Path): nat
    requires p in entries
  {
    if entries[p].kind.Directory? then 2 + CountDirs(entries, Kids(order, p)) else 1
  }

  function LinkCounts(entries: map<Path, Entry>, order: seq<Path>): map<Path, nat> {
    map p | p in entries :: LinkCount(entries, order, p)
  }

  // ---------------------------------------------------------------- ID indices

  datatype Ids = Ids(list: seq<nat>, uid: map<Path, nat>, gid: map<Path, nat>)

  function InternOne(entries: map<Path, Entry>, p: Path, t: Ids): Option<Ids>
    requires p in entries
  {
    var u :- InternId(t.list, entries[p].attrs.uid);
    var g :- InternId(u.list, entries[p].attrs.gid);
    Some(Ids(g.list, t.uid[p := u.idx], t.gid[p := g.idx]))
  }

  /** Interning in creation order, hardlinks skipped. */
  function InternAll(entries: map<Path, Entry>, ps: seq<Path>, t: Ids): Option<Ids> {
    if ps == [] then Some(t) else
    if ps[0] !in entries || entries[ps[0]].kind.Hardlink? then InternAll(entries, ps[1..], t) else
    var t' :- InternOne(entries, ps[0], t);
    InternAll(entries, ps[1..], t')
  }

  const NO_IDS: Ids := Ids([], map[], map[])

  /** All entries, then the root. */
  function IdsOf(entries: map<Path, Entry>, order: seq<Path>): Option<Ids>
    requires ROOT in entries
  {
    var t :- InternAll(entries, order, NO_IDS);
    InternOne(entries, ROOT, t)
  }

  /** Indices assigned so far point at the ids they stand for. */
  ghost predicate IdsGood(entries: map<Path, Entry>, t: Ids) {
    && |t.list| <= MAX_IDS && (forall i :: 0 <= i < |t.list| ==> t.list[i] <= MAX32)
    && (forall p :: p in t.uid <==> p in t.gid)
    && forall p :: p in t.uid ==>
         && p in entries && t.uid[p] < |t.list| && t.list[t.uid[p]] == entries[p].attrs.uid
         && p in t.gid && t.gid[p] < |t.list| && t.list[t.gid[p]] == entries[p].attrs.gid
  }

  lemma InternOneGood(entries: map<Path, Entry>, p: Path, t: Ids)
    requires p in entries && ValidAttrs(entries[p].attrs) && IdsGood(entries, t) && InternOne(entries, p, t).Some?
    ensures var t' := InternOne(entries, p, t).value;
            IdsGood(entries, t') && forall q :: q in t'.uid <==> q in t.uid || q == p
  {
    hide InternId;
    var u := InternId(t.list, entries[p].attrs.uid).value;
    var g := InternId(u.list, entries[p].attrs.gid).value;
    InternValues(t.list, entries[p].attrs.uid);
    InternValues(u.list, entries[p].attrs.gid);
    PrefixIndex(t.list, u.list, g.list);
    IdsStep(entries, p, t, u.idx, g.idx, g.list);
  }

  lemma IdsStep(entries: map<Path, Entry>, p: Path, t: Ids, u: nat, g: nat, list: seq<nat>)
    requires IdsGood(entries, t) && p in entries
    requires |t.list| <= |list| <= MAX_IDS && (forall i :: 0 <= i < |t.list| ==> list[i] == t.list[i])
    requires forall i :: 0 <= i < |list| ==> list[i] <= MAX32
    requires u < |list| && list[u] == entries[p].attrs.uid && g < |list| && list[g] == entries[p].attrs.gid
    ensures IdsGood(entries, Ids(list, t.uid[p := u], t.gid[p := g]))
  {
  }

  lemma PrefixIndex(a: seq<nat>, b: seq<nat>, c: seq<nat>)
    requires a <= b && b <= c
    ensures |a| <= |b| <= |c|
    ensures forall i :: 0 <= i < |a| ==> c[i] == a[i]
    ensures forall i :: 0 <= i < |b| ==> c[i] == b[i]
  {
  }

  lemma InternValues(list: seq<nat>, id: nat)
    requires id <= MAX32 && InternId(list, id).Some? && forall i :: 0 <= i < |list| ==> list[i] <= MAX32
    ensures var r := InternId(list, id).value.list; forall i :: 0 <= i < |r| ==> r[i] <= MAX32
  {
  }

  lemma {:induction false} InternAllGood(entries: map<Path, Entry>, ps: seq<Path>, t: Ids)
    requires IdsGood(entries, t) && InternAll(entries, ps, t).Some?
    requires forall p :: p in ps && p in entries ==> ValidAttrs(entries[p].attrs)
    ensures var t' := InternAll(entries, ps, t).value;
            && IdsGood(entries, t')
            && forall q :: q in t'.uid <==> q in t.uid || (q in ps && q in entries && !entries[q].kind.Hardlink?)
  {
    hide IdsGood, InternOne;
    if ps != [] {
      assert ps[0] in ps && forall q :: q in ps <==> q == ps[0] || q in ps[1..];
      if ps[0] in entries && !entries[ps[0]].kind.Hardlink? {
        InternOneGood(entries, ps[0], t);
        InternAllGood(entries, ps[1..], InternOne(entries, ps[0], t).value);
      } else {
        InternAllGood(entries, ps[1..], t);
      }
    }
  }

  // ---------------------------------------------------------------- superblock fields

  /** The nearest 32-bit value. */
  function Clamp32(n: int): (r: nat)
    ensures r <= 0xFFFF_FFFF && (0 <= n <= 0xFFFF_FFFF ==> r == n)
    ensures (n < 0 ==> r == 0) && (n > 0xFFFF_FFFF ==> r == 0xFFFF_FFFF)
  {
    if n < 0 then 0 else if n > MAX32 then MAX32 else n
  }

  /** Latest time among the entries of `ps` that have one, and the epoch. */
  function Latest(entries: map<Path, Entry>, ps: seq<Path>): (m: int)
    ensures m >= 0
  {
    if ps == [] then 0 else
    var m := Latest(entries, ps[1..]);
    if ps[0] in entries && !entries[ps[0]].attrs.mtime.IsZero() && entries[ps[0]].attrs.mtime.sec > m
    then entries[ps[0]].attrs.mtime.sec else m
  }

  function ImageTime(cfg: Config, entries: map<Path, Entry>, order: seq<Path>): (r: nat)
    ensures r <= MAX32
  {
    if cfg.mtime.IsZero() then Clamp32(Latest(entries, order)) else Clamp32(cfg.mtime.sec)
  }

  function OwnerSet(entries: map<Path, Entry>): set<Path> {
    set p | p in entries && !entries[p].kind.Hardlink?
  }

  // ---------------------------------------------------------------- everything together

  /** The context of the table passes. */
  function Prepared(cfg: Config, entries: map<Path, Entry>, order: seq<Path>, ids: Ids): Ctx
    requires Listed(order)
  {
    Ctx(cfg, entries, order, Numbers(order, Links(entries)), Parents(order, Links(entries)), LinkCounts(entries, order),
        ids.uid, ids.gid)
  }

  /** The image Close produces for a finished stream of entries, or nothing where it reports an error. */
  function ClosedParts(cfg: Config, s: State): Option<Parts>
    requires Listed(s.order)
  {
    var entries := WithRoot(cfg, s.entries);
    if !TreeOk(entries, s.order) then None else
    var ids :- IdsOf(entries, s.order);
    var t :- BuildTables(Prepared(cfg, entries, s.order, ids));
    Some(Parts(cfg, s.data, t, ids.list, |OwnerSet(entries)|, ImageTime(cfg, entries, s.order)))
  }

  /** The same context, recovered from the state. */
  ghost function ContextOf(cfg: Config, s: State): Ctx
    requires Listed(s.order) && IdsOf(WithRoot(cfg, s.entries), s.order).Some?
  {
    Prepared(cfg, WithRoot(cfg, s.entries), s.order, IdsOf(WithRoot(cfg, s.entries), s.order).value)
  }

  // ---------------------------------------------------------------- the passes are well prepared

  lemma {:induction false} SetSize(ps: seq<Path>)
    ensures |set p | p in ps| <= |ps|
    ensures NoDup(ps) ==> |set p | p in ps| == |ps|
  {
    if ps != [] {
      var rest := ps[1..];
      SetSize(rest);
      assert (set p | p in ps) == {ps[0]} + (set p | p in rest);
      if NoDup(ps) {
        assert ps == [ps[0]] + rest;
        TailNoDup(ps[0], rest);
      }
    }
  }

  ghost predicate EntriesShaped(entries: map<Path, Entry>, order: seq<Path>) {
    && Listed(order) && (forall p :: p in entries <==> p == ROOT || p in order)
    && entries[ROOT].kind.Directory? && TreeOk(entries, order)
  }

  /** The owners visited by the numbering walk are the entries that are not hardlinks; their number
      is the superblock's inode count. */
  lemma OwnerCount(entries: map<Path, Entry>, order: seq<Path>)
    requires EntriesShaped(entries, order)
    ensures Tree.Closed(order) && LinksAreLeaves(order, Links(entries))
    ensures var ps := Owners(Whole(order), Links(entries));
            && (forall p :: p in ps <==> p in OwnerSet(entries))
            && |ps| == |OwnerSet(entries)| && |ps| <= |order| + 1
  {
    hide Owners, Whole, Kids, ValidPath, Dir, NoDup;
    ShapedLeaves(entries, order);
    var links := Links(entries);
    var ps := Owners(Whole(order), links);
    NumberBijection(order, links);
    WholeShape(order);
    WholeVisits(order);
    OwnersNoDup(order, Whole(order), links);
    assert forall p :: p in ps <==> p in OwnerSet(entries);
    assert (set p | p in ps) == OwnerSet(entries);
    SetSize(ps);
    SetSize(order);
    SubsetSize(OwnerSet(entries), {ROOT} + set p | p in order);
  }

  lemma ShapedLeaves(entries: map<Path, Entry>, order: seq<Path>)
    requires EntriesShaped(entries, order)
    ensures Tree.Closed(order) && LinksAreLeaves(order, Links(entries))
  {
    hide ValidPath, Dir, Kids;
    forall l | l in Links(entries) ensures Kids(order, l) == [] {
      KidsSpec(order, l);
      if Kids(order, l) != [] {
        HasMember(Kids(order, l));
      }
    }
    forall p | p in order && Dir(p) != ROOT ensures Dir(p) in order {
      var i :| 0 <= i < |order| && order[i] == p;
    }
  }
}

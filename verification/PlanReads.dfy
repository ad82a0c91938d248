/** What it means that a reader sees a plan. */
module PlanReads {
  import opened Bytes
  import opened Names
  import opened Paths
  import opened Tree
  import opened Entries
  import opened Reader
  import opened TarState

  ghost predicate NodeShown(n: Node, t: Step) {
    match t.entry.kind
    case File(_, _, _) => n == IsFile(t.body)
    case Directory => n.IsDir?
    case Symlink(target) => n.IsSymlink? && n.target == target
    case CharDev(major, minor) => n.IsDevice? && !n.block && n.major == major && n.minor == minor
    case BlockDev(major, minor) => n.IsDevice? && n.block && n.major == major && n.minor == minor
    case Fifo => n.IsIpc? && !n.socket
    case Socket => n.IsIpc? && n.socket
    case Hardlink(_) => n.IsFile?
  }

  /** A reader finds the step's entry; a hardlink reads as the file it names. */
  ghost predicate StepShown(cfg: Config, img: seq<Byte>, t: Step) {
    var r := StatPath(cfg.codec, img, t.path);
    && r.Some? && NodeShown(r.value.node, t)
    && if t.entry.kind.Hardlink? then r == StatPath(cfg.codec, img, t.entry.kind.link)
       else && r.value.perm == Perm(t.entry.attrs)
            && r.value.uid == t.entry.attrs.uid && r.value.gid == t.entry.attrs.gid
            && Some(r.value.mtime) == EntryMtime(cfg, t.entry.attrs)
  }

  /** The root: mode 0755, owned by root, stamped with the configured time or the epoch. */
  ghost predicate RootShown(cfg: Config, img: seq<Byte>) {
    var r := StatPath(cfg.codec, img, ROOT);
    && r.Some? && r.value.node.IsDir? && r.value.perm == 0x1ED && r.value.uid == 0 && r.value.gid == 0
    && r.value.mtime == if cfg.mtime.IsZero() then 0 else cfg.mtime.sec
  }

  ghost predicate AscendingNames(ns: seq<Name>) {
    forall i, j :: 0 <= i < j < |ns| ==> Less(ns[i], ns[j])
  }

  /** A directory at `p` lists, in byte order, what the plan has directly below it. */
  ghost predicate DirShown(cfg: Config, img: seq<Byte>, plan: seq<Step>, p: Path) {
    var r := StatPath(cfg.codec, img, p);
    r.Some? && r.value.node.IsDir? ==>
      && AscendingNames(r.value.node.names)
      && forall b :: b in r.value.node.names <==> exists q :: q in PathsOf(plan) && IsChild(q, p) && Base(q) == b
  }

  ghost predicate PlanShown(cfg: Config, img: seq<Byte>, plan: seq<Step>) {
    && (forall p :: StatPath(cfg.codec, img, p).Some? <==> p == ROOT || p in PathsOf(plan))
    && (forall i :: 0 <= i < |plan| ==> StepShown(cfg, img, plan[i]))
    && (forall p :: DirShown(cfg, img, plan, p))
    && RootShown(cfg, img)
  }
}

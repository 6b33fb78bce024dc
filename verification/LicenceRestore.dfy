/** How refreshApp of src/refresh.c finds the licence that it writes back: the content id in param.sfo
    is the key of a row that the licence walk has made. */
module LicenceRestore {
  import opened Common
  import opened PathText
  import opened FileTree
  import opened Storage
  import opened Licences
  import Sfo
  import SfoPack
  import Dlc

  const PARAM: Path := ["sce_sys", "param.sfo"]

  /** "CONTENT_ID" */
  const CONTENT_ID: seq<Byte> := [0x43, 0x4f, 0x4e, 0x54, 0x45, 0x4e, 0x54, 0x5f, 0x49, 0x44]

  lemma {:induction false} KeyText()
    ensures |CONTENT_ID| == |"CONTENT_ID"| && forall k :: 0 <= k < 10 ==> CONTENT_ID[k] == "CONTENT_ID"[k] as int
  {
  }

  lemma {:induction false} ParamText(path: Path)
    requires path != []
    ensures Render(path + PARAM) == Render(path) + "/sce_sys/param.sfo"
  {
    RenderJoin(path, PARAM);
    RenderJoin(["sce_sys"], ["param.sfo"]);
    assert ["sce_sys"] + ["param.sfo"] == PARAM;
  }

  /** The size of the caller's buffer. */
  const ID_SIZE := 50

  /** What getSfoString can read; with any other file the C code leaves its buffer unset, or reads outside. */
  ghost predicate Legible(b: seq<Byte>) {
    && Sfo.HasHeader(b) && Sfo.Magic(b) == Sfo.SFO_MAGIC && Sfo.Readable(b) && Sfo.Copyable(b, CONTENT_ID, ID_SIZE)
    && Sfo.String(b, CONTENT_ID).Ok?
  }

  /** The content id that refreshApp asks the database for. */
  ghost function AskedFor(b: seq<Byte>): seq<Byte>
    requires Legible(b)
  {
    Text(Sfo.Truncated(Sfo.String(b, CONTENT_ID).value, ID_SIZE), 0)
  }

  /** query_rif: only a row of the right size counts. */
  function Query(rows: Rows, id: seq<Byte>): Option<seq<Byte>> {
    if id in rows && |rows[id]| == RIF_SIZE then Some(rows[id]) else None
  }

  method QueryRif(disk: Disk, db: Database, id: seq<Byte>) returns (rif: Option<seq<Byte>>)
    modifies disk`faults
    ensures disk.faults >= old(disk.faults)
    ensures rif.Some? || disk.faults == old(disk.faults) ==> rif == Query(db.rows, id)
  {
    var failed := disk.Fault();
    if failed || id !in db.rows || |db.rows[id]| != RIF_SIZE { return None; }
    return Some(db.rows[id]);
  }

  /** The lookup of refreshApp, for a param.sfo that is legible, empty or not there. */
  method LookUp(disk: Disk, db: Database, path: Path) returns (licence: Option<seq<Byte>>)
    requires match Get(disk.tree, path + PARAM) case Some(File(b)) => b == [] || Legible(b) case _ => true
    modifies disk`faults
    ensures disk.faults >= old(disk.faults)
    ensures disk.faults == old(disk.faults) ==>
              match Get(disk.tree, path + PARAM)
              case Some(File(b)) => licence == if b == [] then None else Query(db.rows, AskedFor(b))
              case _ => licence == None
  {
    licence := None;
    var fd := disk.OpenRead(path + PARAM);
    if fd >= 0 {
      var sfo_size, b := disk.ReadStart(path + PARAM, |disk.tree[path + PARAM].data|);
      if sfo_size > 0 {
        assert b == disk.tree[path + PARAM].data;
        var buffer := new Byte[|b|](i requires 0 <= i < |b| => b[i]);
        assert buffer[..] == b;
        var contentid := new Byte[ID_SIZE](_ => 0);
        var _ := Sfo.GetSfoString(buffer, CONTENT_ID, contentid, ID_SIZE);
        assert contentid[..] == Sfo.Truncated(Sfo.String(b, CONTENT_ID).value, ID_SIZE);
        licence := QueryRif(disk, db, Text(contentid[..], 0));
      }
    }
  }

  /** refreshApp with its lookup. Undisturbed, a refresh that does not promote leaves as work.bin the
      licence of the content id, if it was missing, its directory is there and the database has one. */
  method RefreshOne(disk: Disk, db: Database, path: Path) returns (res: int)
    requires path != []
    requires match Get(disk.tree, path + PARAM) case Some(File(b)) => b == [] || Legible(b) case _ => true
    modifies disk
    ensures disk.faults >= old(disk.faults)
    ensures res != 1 ==> Dlc.OnlyBin(old(disk.tree), disk.tree, path)
    ensures res != 1 && disk.faults == old(disk.faults) && path + Dlc.WORK !in old(disk.tree)
            && Get(old(disk.tree), path + Dlc.PACKAGE) == Some(Dir) ==>
              match Get(old(disk.tree), path + PARAM)
              case Some(File(b)) =>
                var licence := if b == [] then None else Query(db.rows, AskedFor(b));
                Get(disk.tree, path + Dlc.WORK) == if licence.Some? then Some(File(licence.value)) else None
              case _ => Get(disk.tree, path + Dlc.WORK) == None
  {
    var licence := LookUp(disk, db, path);
    res := Dlc.RefreshApp(disk, path, licence);
  }

  // ----- What the licence walk has put there -----

  /** A complete licence file of this content id. */
  ghost predicate LicenceFile(t: Nodes, p: Path, id: seq<Byte>) {
    IsRif(t, p) && |t[p].data| >= RIF_SIZE && ContentId(t[p].data[..RIF_SIZE]) == id
  }

  /** After a walk over the files `all` into an empty database, the licence of `id` is the first 512 bytes of
      a licence file with this content id; and undisturbed there is one if some file has it. */
  lemma {:induction false} LicenceIsFromFile(t: Nodes, rows: Rows, copied: nat, all: set<Path>, quiet: bool,
                                             id: seq<Byte>)
    requires Copied(t, Totals(0, 0, map[]), Totals(0, copied, rows), all, quiet)
    ensures Query(rows, id).Some? ==>
              exists p :: p in all && LicenceFile(t, p, id) && Query(rows, id).value == t[p].data[..RIF_SIZE]
    ensures quiet ==> (Query(rows, id).Some? <==> exists p :: p in all && LicenceFile(t, p, id))
  {
    if id in rows {
      var p :| p in all && RowOf(t, p, id, rows[id]);
      assert LicenceFile(t, p, id) && rows[id] == t[p].data[..RIF_SIZE];
    }
    if p :| p in all && LicenceFile(t, p, id) {
      assert Blob(t, p) == t[p].data[..RIF_SIZE];
    }
  }

  /** The content id lies behind sixteen bytes of the licence. */
  lemma {:induction false} IdBehindSixteen(head: seq<Byte>, id: seq<Byte>, rest: seq<Byte>)
    requires |head| == 16 && NoZero(id)
    ensures ContentId(head + id + [0] + rest) == id
  {
    var rif := head + id + [0] + rest;
    assert rif[16..16 + |id|] == id && rif[16 + |id|] == 0;
    Sfo.TextIs(rif, 16, id);
  }

  /** The id that is asked for is the one that was packed into param.sfo. */
  lemma {:induction false} AskedForPacked(version: nat, items: seq<SfoPack.Item>, i: nat, id: seq<Byte>)
    requires SfoPack.Packable(items) && i < |items| && items[i].key == CONTENT_ID
    requires NoZero(id) && |id| < ID_SIZE && items[i].data == id + [0]
    ensures Legible(SfoPack.Pack(version, items)) && AskedFor(SfoPack.Pack(version, items)) == id
  {
    var b := SfoPack.Pack(version, items);
    SfoPack.PackedString(version, items, i, id);
    Sfo.TruncatedText(id, ID_SIZE);
    TerminatedAtKey(version, items, i, id);
  }

  lemma {:induction false} TerminatedAtKey(version: nat, items: seq<SfoPack.Item>, i: nat, id: seq<Byte>)
    requires SfoPack.Packable(items) && i < |items| && items[i].key == CONTENT_ID
    requires NoZero(id) && items[i].data == id + [0]
    ensures var b := SfoPack.Pack(version, items);
      Sfo.WellFormed(b) && Sfo.Readable(b) && Sfo.Copyable(b, CONTENT_ID, ID_SIZE)
  {
    var b, k, v, ps, ds := SfoPack.Lays(version, items);
    SfoPack.LaidIsWellFormed(b, items, k, v, ps, ds);
    SfoPack.LaidData(b, items, k, v, ps, ds);
    SfoPack.FoundIn(Sfo.LayoutOf(b), items, i);
    SfoPack.HasText(b, Sfo.LayoutOf(b).data[i], id);
    Sfo.WellFormedIsReadable(b, CONTENT_ID, 0);
  }

  /** Both together: a directory whose param.sfo names `id`, and that has lost its work.bin, gets back the
      first 512 bytes of a licence file of `id`, if the walk has seen one, and nothing otherwise. */
  lemma {:induction false} RestoredLicence(t0: Nodes, t: Nodes, dir: Path, temp: Path, n: Name, id: seq<Byte>,
                                           files: Nodes, all: set<Path>, rows: Rows, copied: nat)
    requires Copied(files, Totals(0, 0, map[]), Totals(0, copied, rows), all, true)
    requires At(t0, dir + [n], Dlc.WORK) == None && At(t0, dir + [n], Dlc.PACKAGE) == Some(Dir)
    requires Dlc.IsAt(t0, t, dir, temp, n, Dlc.Restored(t0, dir, n, Query(rows, id)))
    ensures match At(t, dir + [n], Dlc.WORK)
            case Some(bin) =>
              exists p :: p in all && LicenceFile(files, p, id) && bin == File(files[p].data[..RIF_SIZE])
            case None => forall p :: p in all ==> !LicenceFile(files, p, id)
  {
    Dlc.RestoredBin(t0, t, dir, temp, n, Query(rows, id));
    LicenceIsFromFile(files, rows, copied, all, true, id);
  }
}

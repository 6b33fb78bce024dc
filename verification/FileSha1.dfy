/** getFileSha1 of src/file.c. */
module FileSha1 {
  import opened Common
  import opened PathText
  import opened FileTree
  import opened Storage
  import opened Params
  import Sha1Stream
  import Fips180

  const TRANSFER_SIZE := 128 * 1024

  /** `size` bytes can come in `chunks` reads. */
  predicate ChunksOf(size: nat, chunks: nat) {
    chunks <= size <= chunks * 131072
  }

  /** However the device cuts the file into reads, a finished run leaves the one-shot SHA-1 of the
      file. The counter advances once for every chunk. */
  method GetFileSha1(disk: Disk, file: Path, out: array<Byte>, param: Progress?) returns (ret: int, ghost chunks: nat)
    requires out.Length >= 20
    modifies disk`faults, param, out
    ensures disk.faults >= old(disk.faults)
    ensures ret <= 1
    ensures ret == 1 ==>
              && Get(disk.tree, file).Some? && disk.tree[file].File?
              && out[..20] == Fips180.Sha1(disk.tree[file].data)
              && ChunksOf(|disk.tree[file].data|, chunks)
    ensures ret != 1 ==> out[..] == old(out[..])
    ensures (ret == 0 ==> param != null && param.cancelled) && Stops(param, ret)
    ensures ret < 0 ==> disk.faults > old(disk.faults) || Get(disk.tree, file) in {None, Some(Dir)}
    ensures param != null ==> param.value == old(param.value) + chunks
  {
    var ctx := new Sha1Stream.Context();
    ret := disk.OpenRead(file);
    if ret < 0 { return ret, 0; }
    ret, chunks := HashAll(disk, file, ctx, param);
    if ret == 1 { ctx.Final(out); }
  }

  /** The loop, up to the end of the file. */
  method HashAll(disk: Disk, file: Path, ctx: Sha1Stream.Context, param: Progress?)
      returns (ret: int, ghost chunks: nat)
    requires file in disk.tree && disk.tree[file].File?
    requires ctx.Valid() && ctx.Message() == []
    modifies disk`faults, param, ctx, ctx.data, ctx.state
    ensures disk.faults >= old(disk.faults)
    ensures ret <= 1
    ensures ret == 1 ==>
            ctx.Valid() && ctx.Message() == disk.tree[file].data && ChunksOf(|disk.tree[file].data|, chunks)
    ensures (ret == 0 ==> param != null && param.cancelled) && Stops(param, ret)
    ensures ret < 0 ==> disk.faults > old(disk.faults)
    ensures param != null ==> param.value == old(param.value) + chunks
  {
    chunks := 0;
    ghost var data := disk.tree[file].data;
    assert data[..0] == [];
    var pos := 0;
    while true
      invariant ctx.Valid()
      invariant pos <= |data| && ChunksOf(pos, chunks)
      invariant ctx.Message() == data[..pos]
      invariant disk.faults == old(disk.faults)
      invariant (param != null ==> param.value == old(param.value) + chunks) && Stops(param, 1)
      decreases |data| - pos
    {
      var read := HashChunk(disk, file, ctx, pos);
      if read < 0 { return read, chunks; }
      if read == 0 { break; }
      pos, chunks := pos + read, chunks + 1;
      var cancel := Advance(param, 1);
      if cancel { return 0, chunks; }
    }
    assert data[..pos] == data;
    return 1, chunks;
  }

  /** One read at `pos`, and the hash of what it gave. */
  method HashChunk(disk: Disk, file: Path, ctx: Sha1Stream.Context, pos: nat) returns (read: int)
    requires file in disk.tree && disk.tree[file].File? && pos <= |disk.tree[file].data|
    requires ctx.Valid() && ctx.Message() == disk.tree[file].data[..pos]
    modifies disk`faults, ctx, ctx.data, ctx.state
    ensures read < 0 ==> disk.faults > old(disk.faults)
    ensures read >= 0 ==>
              && disk.faults == old(disk.faults) && ctx.Valid()
              && read <= TRANSFER_SIZE && pos + read <= |disk.tree[file].data|
              && ctx.Message() == disk.tree[file].data[..pos + read]
              && (read == 0 ==> pos == |disk.tree[file].data|)
  {
    ghost var data := disk.tree[file].data;
    var chunk;
    read, chunk := disk.Read(file, pos, TRANSFER_SIZE);
    if read > 0 {
      assert data[..pos] + chunk == data[..pos + read];
      ctx.Update(chunk);
    }
  }
}

/** PVC storage: the chunked copy of Upload and Download with the checksum computed on the
    way, and Delete. */
module PvcStorage {
  import opened Common
  import StorageUrls

  newtype byte = x: int | 0 <= x < 256

  // ---------- An incremental hash ----------

  /** A hash that absorbs one byte at a time, as SHA-256 does. */
  datatype Hash<!S> = Hash(init: S, absorb: (S, byte) -> S, digest: S -> string)

  function Absorb<S>(h: Hash<S>, s: S, data: seq<byte>): S {
    if data == [] then s else Absorb(h, h.absorb(s, data[0]), data[1..])
  }

  function Checksum<S>(h: Hash<S>, data: seq<byte>): string {
    h.digest(Absorb(h, h.init, data))
  }

  /** Absorbing chunk by chunk is absorbing the whole. */
  lemma {:induction false} AbsorbConcat<S>(h: Hash<S>, s: S, a: seq<byte>, b: seq<byte>)
    ensures Absorb(h, s, a + b) == Absorb(h, Absorb(h, s, a), b)
    decreases a
  {
    if a == [] {
      assert a + b == b;
    } else {
      assert (a + b)[1..] == a[1..] + b;
      AbsorbConcat(h, h.absorb(s, a[0]), a[1..], b);
    }
  }

  // ---------- Readers and writers ----------

  datatype ReadError = Fine | Eof | Broken

  /** One answer of Read: the bytes, possibly none, and the error that came with them. */
  datatype Read = Read(data: seq<byte>, err: ReadError)

  /** One answer of Write: the count it claims and whether it reports an error. */
  datatype Write = Write(count: int, failed: bool)

  /** The bytes a reader hands out up to its first error. */
  function Delivered(feed: seq<Read>): seq<byte> {
    if feed == [] then []
    else if feed[0].err.Fine? then feed[0].data + Delivered(feed[1..])
    else feed[0].data
  }

  /** The first error is the end of the data. A reader that runs out is at its end. */
  predicate EndsWell(feed: seq<Read>) {
    feed == [] || (if feed[0].err.Fine? then EndsWell(feed[1..]) else feed[0].err.Eof?)
  }

  function WriteAt(writes: seq<Write>, k: nat, size: nat): Write {
    if k < |writes| then writes[k] else Write(size, false)
  }

  predicate Complete(w: Write, size: nat) {
    !w.failed && w.count == size
  }

  /** How much of a chunk an incomplete write leaves behind. */
  function Written(w: Write, size: nat): (n: nat)
    ensures n <= size && (0 <= w.count <= size ==> n == w.count) && (w.count < 0 ==> n == 0)
  {
    Min(Max(0, w.count), size)
  }

  /** Every chunk that is handed out is written in full; `k` is the number of the next write. */
  predicate WritesWell(feed: seq<Read>, writes: seq<Write>, k: nat) {
    feed == [] ||
    (var r := feed[0];
     && (r.data != [] ==> Complete(WriteAt(writes, k, |r.data|), |r.data|))
     && (r.err.Fine? ==> WritesWell(feed[1..], writes, if r.data == [] then k else k + 1)))
  }

  datatype Kind = NotFound | ChecksumMismatch | InvalidConfig | OperationFailed

  datatype Outcome<T> = Done(value: T) | Error(kind: Kind)

  datatype UploadResponse = UploadResponse(url: string, checksum: string, transferred: nat)

  datatype DownloadResponse = DownloadResponse(transferred: nat, checksum: string, contentLength: nat)

  /** The caller's side: the source of an upload or the destination of a download. */
  datatype Peer = Usable | Missing | NotGiven | Unusable

  function PeerError(p: Peer): Kind {
    match p
    case Missing => NotFound
    case NotGiven => InvalidConfig
    case _ => OperationFailed
  }

  /** How the file system and the streams behave during one operation. */
  datatype Env = Env(dirOk: bool, peer: Peer, openOk: bool, syncOk: bool, removeOk: bool, feed: seq<Read>, writes: seq<Write>)

  // ---------- What Upload and Download return ----------

  function UploadResult<S>(h: Hash<S>, mount: string, url: string, expected: string, env: Env): Outcome<UploadResponse> {
    if StorageUrls.ParsePath(mount, url).Err? then Error(InvalidConfig)
    else if !env.dirOk then Error(OperationFailed)
    else if !env.peer.Usable? then Error(PeerError(env.peer))
    else if !env.openOk then Error(OperationFailed)
    else if !EndsWell(env.feed) || !WritesWell(env.feed, env.writes, 0) || !env.syncOk then Error(OperationFailed)
    else
      var sum := Checksum(h, Delivered(env.feed));
      if expected != "" && expected != sum then Error(ChecksumMismatch)
      else Done(UploadResponse(url, sum, |Delivered(env.feed)|))
  }

  /** The upload gets as far as creating, or emptying, the file. */
  predicate Opens(mount: string, url: string, env: Env) {
    StorageUrls.ParsePath(mount, url).Ok? && env.dirOk && env.peer.Usable? && env.openOk
  }

  /** The upload copies everything, but not the bytes whose checksum was announced. */
  predicate Mismatch<S>(h: Hash<S>, mount: string, url: string, expected: string, env: Env) {
    && Opens(mount, url, env) && env.syncOk
    && EndsWell(env.feed) && WritesWell(env.feed, env.writes, 0)
    && expected != "" && expected != Checksum(h, Delivered(env.feed))
  }

  function DownloadResult<S>(h: Hash<S>, mount: string, files: map<string, seq<byte>>, url: string, verify: bool, expected: string, env: Env): Outcome<DownloadResponse> {
    var path := StorageUrls.ParsePath(mount, url);
    if path.Err? then Error(InvalidConfig)
    else if path.value !in files then Error(NotFound)
    else if !env.openOk then Error(OperationFailed)
    else if !env.peer.Usable? then Error(PeerError(env.peer))
    else if !EndsWell(env.feed) || !WritesWell(env.feed, env.writes, 0) then Error(OperationFailed)
    else
      var sum := Checksum(h, Delivered(env.feed));
      if verify && expected != "" && expected != sum then Error(ChecksumMismatch)
      else Done(DownloadResponse(|Delivered(env.feed)|, if verify then sum else "", |files[path.value]|))
  }

  /** The reads of an open file: if they reach the end, they handed out its contents. */
  ghost predicate ReadsFile(feed: seq<Read>, content: seq<byte>) {
    EndsWell(feed) ==> Delivered(feed) == content
  }

  // ---------- The loops ----------

  /** The copy loop that Upload and Download share: `out` is what reached the destination,
      `state` what the hasher holds, `transferred` the running count. */
  method Copy<S>(h: Hash<S>, hashing: bool, feed: seq<Read>, writes: seq<Write>)
    returns (ok: bool, out: seq<byte>, state: S, transferred: nat)
    ensures ok <==> EndsWell(feed) && WritesWell(feed, writes, 0)
    ensures out <= Delivered(feed)
    ensures ok ==> out == Delivered(feed) && transferred == |out|
    ensures ok && hashing ==> state == Absorb(h, h.init, Delivered(feed))
  {
    ok, out, state, transferred := true, [], h.init, 0;
    var i, k := 0, 0;
    while i < |feed|
      invariant 0 <= i <= |feed|
      invariant Delivered(feed) == out + Delivered(feed[i..])
      invariant EndsWell(feed) == EndsWell(feed[i..])
      invariant WritesWell(feed, writes, 0) == WritesWell(feed[i..], writes, k)
      invariant transferred == |out|
      invariant hashing ==> state == Absorb(h, h.init, out)
    {
      var chunk := feed[i].data;
      if chunk != [] {
        var w := WriteAt(writes, k, |chunk|);
        if !Complete(w, |chunk|) {
          return false, out + chunk[..Written(w, |chunk|)], state, transferred;
        }
        transferred := transferred + |chunk|;
        if hashing {
          AbsorbConcat(h, h.init, out, chunk);
          state := Absorb(h, state, chunk);
        }
        out := out + chunk;
        k := k + 1;
      }
      if !feed[i].err.Fine? {
        ok := feed[i].err.Eof?;
        return;
      }
      i := i + 1;
    }
  }

  function Configured(mountPath: string): string {
    if mountPath == "" then "/mnt/migration-storage" else mountPath
  }

  class PvcStorage<S> {
    const mountPath: string
    const hash: Hash<S>
    var files: map<string, seq<byte>>

    /** The mount path is cleaned; every URL resolves as it would under the configured one. */
    constructor (mountPath: string, hash: Hash<S>, files: map<string, seq<byte>>)
      ensures forall url :: StorageUrls.ParsePath(this.mountPath, url)
                         == StorageUrls.ParsePath(if mountPath != "" then mountPath else "/mnt/migration-storage", url)
      ensures this.hash == hash && this.files == files
    {
      this.mountPath := StorageUrls.Clean(Configured(mountPath));
      this.hash := hash;
      this.files := files;
      forall url ensures StorageUrls.ParsePath(StorageUrls.Clean(Configured(mountPath)), url)
                      == StorageUrls.ParsePath(Configured(mountPath), url) {
        StorageUrls.CleanMountSameUrl(Configured(mountPath), url);
      }
    }

    /** A successful upload stores exactly the delivered bytes; bytes that do not match the
        expected checksum are removed again; a copy that fails leaves a beginning of them in
        place of the old file; nothing else is touched in any case. */
    method Upload(url: string, expected: string, env: Env) returns (r: Outcome<UploadResponse>)
      modifies this
      ensures r == UploadResult(hash, mountPath, url, expected, env)
      ensures var path := StorageUrls.ParsePath(mountPath, url);
              && (r.Done? ==> path.Ok? && files == old(files)[path.value := Delivered(env.feed)])
              && (Mismatch(hash, mountPath, url, expected, env) ==>
                    && r == Error(ChecksumMismatch)
                    && files == if env.removeOk then old(files) - {path.value} else old(files)[path.value := Delivered(env.feed)])
              && (!Opens(mountPath, url, env) ==> files == old(files))
              && (Opens(mountPath, url, env) && !(r == Error(ChecksumMismatch) && env.removeOk) ==>
                    path.value in files && files[path.value] <= Delivered(env.feed))
              && (path.Ok? ==> files - {path.value} == old(files) - {path.value})
    {
      var path := StorageUrls.ParsePath(mountPath, url);
      if path.Err? {
        return Error(InvalidConfig);
      }
      if !env.dirOk {
        return Error(OperationFailed);
      }
      if !env.peer.Usable? {
        return Error(PeerError(env.peer));
      }
      if !env.openOk {
        return Error(OperationFailed);
      }
      var ok, out, state, transferred := Copy(hash, true, env.feed, env.writes);
      files := files[path.value := out];
      if !ok || !env.syncOk {
        return Error(OperationFailed);
      }
      var checksum := hash.digest(state);
      if expected != "" && expected != checksum {
        if env.removeOk {
          files := files - {path.value};
        }
        return Error(ChecksumMismatch);
      }
      r := Done(UploadResponse(url, checksum, transferred));
    }

    /** A successful download hands out exactly the stored file. */
    method Download(url: string, verify: bool, expected: string, env: Env) returns (r: Outcome<DownloadResponse>, out: seq<byte>)
      requires var path := StorageUrls.ParsePath(mountPath, url);
               path.Ok? && path.value in files ==> ReadsFile(env.feed, files[path.value])
      ensures r == DownloadResult(hash, mountPath, files, url, verify, expected, env)
      ensures r.Done? ==> out == files[StorageUrls.ParsePath(mountPath, url).value]
      ensures r.Done? ==> r.value.transferred == r.value.contentLength == |out|
      ensures r.Done? ==> r.value.checksum == if verify then Checksum(hash, out) else ""
      ensures r.Done? && verify && expected != "" ==> expected == Checksum(hash, out)
    {
      out := [];
      var path := StorageUrls.ParsePath(mountPath, url);
      if path.Err? {
        return Error(InvalidConfig), out;
      }
      if path.value !in files {
        return Error(NotFound), out;
      }
      var contentLength := |files[path.value]|;
      if !env.openOk {
        return Error(OperationFailed), out;
      }
      if !env.peer.Usable? {
        return Error(PeerError(env.peer)), out;
      }
      var ok, copied, state, transferred := Copy(hash, verify, env.feed, env.writes);
      out := copied;
      if !ok {
        return Error(OperationFailed), out;
      }
      var checksum := "";
      if verify {
        checksum := hash.digest(state);
        if expected != "" && expected != checksum {
          return Error(ChecksumMismatch), out;
        }
      }
      r := Done(DownloadResponse(transferred, checksum, contentLength));
    }

    /** Afterwards the file is gone and every other file is as it was. */
    method Delete(url: string, removeOk: bool) returns (r: Outcome<()>)
      modifies this
      ensures var path := StorageUrls.ParsePath(mountPath, url);
              && (r.Done? <==> path.Ok? && (path.value !in old(files) || removeOk))
              && files == (if r.Done? then old(files) - {path.value} else old(files))
    {
      var path := StorageUrls.ParsePath(mountPath, url);
      if path.Err? {
        return Error(InvalidConfig);
      }
      if path.value !in files {
        assert files - {path.value} == files;
        return Done(());
      }
      if !removeOk {
        return Error(OperationFailed);
      }
      files := files - {path.value};
      r := Done(());
    }
  }

  // ---------- When a copy, an upload and a download succeed, and why they fail ----------

  /** The chunks that are written: those that are not empty, up to the first error. */
  function Chunks(feed: seq<Read>): seq<seq<byte>> {
    if feed == [] then []
    else
      var own := if feed[0].data == [] then [] else [feed[0].data];
      if feed[0].err.Fine? then own + Chunks(feed[1..]) else own
  }

  /** The chunk's write reported no error and claimed the whole chunk. */
  predicate InFull(writes: seq<Write>, k: nat, chunk: seq<byte>) {
    k < |writes| ==> !writes[k].failed && writes[k].count == |chunk|
  }

  /** Each chunk was, from write number `k` on. */
  predicate AllInFull(writes: seq<Write>, k: nat, chunks: seq<seq<byte>>)
    decreases chunks
  {
    chunks == [] || (InFull(writes, k, chunks[0]) && AllInFull(writes, k + 1, chunks[1..]))
  }

  lemma {:induction false} WrittenInFull(feed: seq<Read>, writes: seq<Write>, k: nat)
    ensures WritesWell(feed, writes, k) <==> AllInFull(writes, k, Chunks(feed))
  {
    if feed != [] {
      var own := if feed[0].data == [] then [] else [feed[0].data];
      var rest := if feed[0].err.Fine? then Chunks(feed[1..]) else [];
      assert Chunks(feed) == own + rest;
      if feed[0].data == [] {
        assert own + rest == rest;
      } else {
        assert (own + rest)[0] == feed[0].data && (own + rest)[1..] == rest;
      }
      WrittenInFull(feed[1..], writes, k + |own|);
    }
  }

  /** No read fails before the end of the data. */
  ghost predicate Unbroken(feed: seq<Read>) {
    forall i :: 0 <= i < |feed| && feed[i].err.Broken? ==> exists j :: 0 <= j < i && feed[j].err.Eof?
  }

  /** The copy hands on all chunks, and ends well exactly if no read fails before the end. */
  lemma {:induction false} ChunksDelivered(feed: seq<Read>)
    ensures Flatten(Chunks(feed)) == Delivered(feed)
    ensures EndsWell(feed) <==> Unbroken(feed)
  {
    if feed != [] {
      ChunksDelivered(feed[1..]);
      FlattenOne(feed[0].data);
      if feed[0].err.Fine? {
        if feed[0].data == [] {
          assert Chunks(feed) == [] + Chunks(feed[1..]) == Chunks(feed[1..]);
          assert [] + Delivered(feed[1..]) == Delivered(feed[1..]);
        } else {
          assert Chunks(feed)[1..] == Chunks(feed[1..]);
        }
        EndsLater(feed);
      }
    }
  }

  lemma {:induction false} FlattenOne(chunk: seq<byte>)
    ensures Flatten([chunk]) == chunk
  {
    assert [chunk][1..] == [];
  }

  lemma {:induction false} EndsLater(feed: seq<Read>)
    requires feed != [] && feed[0].err.Fine?
    ensures Unbroken(feed) <==> Unbroken(feed[1..])
  {
    var rest := feed[1..];
    if Unbroken(feed) {
      forall i | 0 <= i < |rest| && rest[i].err.Broken? ensures exists j :: 0 <= j < i && rest[j].err.Eof? {
        var j :| 0 <= j < i + 1 && feed[j].err.Eof?;
        assert rest[j-1] == feed[j];
      }
    }
    if Unbroken(rest) {
      forall i | 0 <= i < |feed| && feed[i].err.Broken? ensures exists j :: 0 <= j < i && feed[j].err.Eof? {
        assert rest[i-1] == feed[i];
        var j :| 0 <= j < i - 1 && rest[j].err.Eof?;
        assert feed[j+1] == rest[j];
      }
    }
  }

  /** The reads end at the end of the data and every chunk is written in full. */
  ghost predicate Copies(env: Env) {
    Unbroken(env.feed) && AllInFull(env.writes, 0, Chunks(env.feed))
  }

  lemma {:induction false} CopiesIff(env: Env)
    ensures Copies(env) <==> EndsWell(env.feed) && WritesWell(env.feed, env.writes, 0)
  {
    ChunksDelivered(env.feed);
    WrittenInFull(env.feed, env.writes, 0);
  }

  /** What each result of an upload means: success that all was copied, synced and matched;
      a mismatch that all was copied but not the bytes announced; the other errors which of
      the URL, the source and the file system was at fault. */
  lemma {:induction false} UploadMeans<S>(h: Hash<S>, mount: string, url: string, expected: string, env: Env)
    ensures var r := UploadResult(h, mount, url, expected, env);
            var valid := StorageUrls.ParsePath(mount, url).Ok?;
            var copied := valid && env.dirOk && env.peer.Usable? && env.openOk && Copies(env) && env.syncOk;
            var sum := Checksum(h, Flatten(Chunks(env.feed)));
            && (r.Done? <==> copied && (expected == "" || expected == sum))
            && (r.Done? ==> r.value == UploadResponse(url, sum, |Flatten(Chunks(env.feed))|))
            && (r == Error(ChecksumMismatch) <==> copied && expected != "" && expected != sum)
            && (r == Error(InvalidConfig) <==> !valid || (env.dirOk && env.peer.NotGiven?))
            && (r == Error(NotFound) <==> valid && env.dirOk && env.peer.Missing?)
  {
    CopiesIff(env);
    ChunksDelivered(env.feed);
  }

  /** What each result of a download means. */
  lemma {:induction false} DownloadMeans<S>(h: Hash<S>, mount: string, files: map<string, seq<byte>>, url: string, verify: bool, expected: string, env: Env)
    ensures var r := DownloadResult(h, mount, files, url, verify, expected, env);
            var path := StorageUrls.ParsePath(mount, url);
            var found := path.Ok? && path.value in files;
            var copied := found && env.openOk && env.peer.Usable? && Copies(env);
            var sum := Checksum(h, Flatten(Chunks(env.feed)));
            && (r.Done? <==> copied && (!verify || expected == "" || expected == sum))
            && (r == Error(ChecksumMismatch) <==> copied && verify && expected != "" && expected != sum)
            && (r == Error(InvalidConfig) <==> path.Err? || (found && env.openOk && env.peer.NotGiven?))
            && (r == Error(NotFound) <==> (path.Ok? && path.value !in files) || (found && env.openOk && env.peer.Missing?))
            && (r.Done? ==> r.value == DownloadResponse(|Flatten(Chunks(env.feed))|, if verify then sum else "", |files[path.value]|))
  {
    CopiesIff(env);
    ChunksDelivered(env.feed);
  }

  // ---------- Round trip ----------

  function Flatten(chunks: seq<seq<byte>>): seq<byte> {
    if chunks == [] then [] else chunks[0] + Flatten(chunks[1..])
  }

  /** A reader that hands out these chunks; `early` if the last one comes with the end of
      the data instead of before it. */
  function Reader(chunks: seq<seq<byte>>, early: bool): seq<Read> {
    if chunks == [] then [Read([], Eof)]
    else if early && |chunks| == 1 then [Read(chunks[0], Eof)]
    else [Read(chunks[0], Fine)] + Reader(chunks[1..], early)
  }

  lemma {:induction false} ReaderDelivers(chunks: seq<seq<byte>>, early: bool, writes: seq<Write>, k: nat)
    ensures Delivered(Reader(chunks, early)) == Flatten(chunks) && EndsWell(Reader(chunks, early))
    ensures |writes| <= k ==> WritesWell(Reader(chunks, early), writes, k)
  {
    if chunks != [] && !(early && |chunks| == 1) {
      ReaderDelivers(chunks[1..], early, writes, if chunks[0] == [] then k else k + 1);
    } else if chunks != [] {
      assert Flatten(chunks[1..]) == [];
    }
  }

  /** However the source is cut into chunks, uploading it to a working file system succeeds
      and reports the length and the checksum of the whole source. */
  lemma {:induction false} AnyChunkingUploads<S>(h: Hash<S>, mount: string, url: string, data: seq<byte>, chunks: seq<seq<byte>>, early: bool)
    requires StorageUrls.ParsePath(mount, url).Ok? && Flatten(chunks) == data
    ensures UploadResult(h, mount, url, "", Env(true, Usable, true, true, true, Reader(chunks, early), []))
         == Done(UploadResponse(url, Checksum(h, data), |data|))
  {
    ReaderDelivers(chunks, early, [], 0);
  }

  /** The streams and the file system of a download work, and it reads what the file holds. */
  ghost predicate Reads(env: Env, content: seq<byte>) {
    && env.openOk && env.peer.Usable? && EndsWell(env.feed) && WritesWell(env.feed, env.writes, 0)
    && ReadsFile(env.feed, content)
  }

  /** A verified download of whatever a file holds succeeds if and only if no checksum is
      expected or the contents have it; else it reports a mismatch. */
  lemma {:induction false} TamperingDetected<S>(h: Hash<S>, mount: string, files: map<string, seq<byte>>, url: string, expected: string, env: Env)
    requires var path := StorageUrls.ParsePath(mount, url);
             path.Ok? && path.value in files && Reads(env, files[path.value])
    ensures var content := files[StorageUrls.ParsePath(mount, url).value];
            DownloadResult(h, mount, files, url, true, expected, env)
            == if expected == "" || expected == Checksum(h, content)
               then Done(DownloadResponse(|content|, Checksum(h, content), |content|))
               else Error(ChecksumMismatch)
  {
  }

  /** After an upload, a file that was changed to bytes with another checksum is found out by
      the next download that expects the uploaded checksum. */
  method UploadTamperDownload<S>(storage: PvcStorage<S>, url: string, up: Env, tampered: seq<byte>, down: Env)
    returns (u: Outcome<UploadResponse>, d: Outcome<DownloadResponse>)
    requires Reads(down, tampered)
    modifies storage
    ensures u.Done? && u.value.checksum != "" && Checksum(storage.hash, tampered) != Checksum(storage.hash, Delivered(up.feed)) ==>
              d == Error(ChecksumMismatch)
  {
    u := storage.Upload(url, "", up);
    if u.Error? {
      return u, Error(NotFound);
    }
    var path := StorageUrls.ParsePath(storage.mountPath, url);
    storage.files := storage.files[path.value := tampered];
    var out;
    d, out := storage.Download(url, true, u.value.checksum, down);
  }

  /** Downloading an uploaded, untouched file and expecting the uploaded checksum never
      reports a mismatch; if it succeeds it hands out the uploaded bytes. */
  method UploadThenDownload<S>(storage: PvcStorage<S>, url: string, announced: string, up: Env, down: Env)
    returns (u: Outcome<UploadResponse>, d: Outcome<DownloadResponse>, out: seq<byte>)
    requires ReadsFile(down.feed, Delivered(up.feed))
    modifies storage
    ensures u.Done? ==> d != Error(ChecksumMismatch)
    ensures u.Done? && d.Done? ==>
              out == Delivered(up.feed) && d.value == DownloadResponse(u.value.transferred, u.value.checksum, u.value.transferred)
    ensures u.Done? && down.openOk && down.peer.Usable? && EndsWell(down.feed) && WritesWell(down.feed, down.writes, 0) ==> d.Done?
  {
    u := storage.Upload(url, announced, up);
    if u.Error? {
      return u, Error(NotFound), [];
    }
    d, out := storage.Download(url, true, u.value.checksum, down);
  }
}

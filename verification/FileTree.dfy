/**
 Files on the chain, tree/tree.go: a file is cut into chunks that are stored under their
 hashes, and a root that lists the hashes, or the contents of a small file, is stored
 under its own.
 */
module FileTree {
  import opened ChainTypes

  type Byte = b: int | 0 <= b < 256

  type Bytes = seq<Byte>

  type Hash = nat

  datatype Root = Root(contents: Bytes, children: seq<Hash>)

  datatype TreeError = ErrRead | ErrEmpty | ErrMissing | ErrClient

  /** The hash of a value, and how a root is written and read. */
  datatype Scheme = Scheme(hash: Bytes -> Hash, encode: Root -> Bytes, decode: Bytes -> Option<Root>)
  {
    ghost predicate Ok() {
      && (forall a, b {:trigger hash(a), hash(b)} :: hash(a) == hash(b) ==> a == b)
      && (forall r {:trigger encode(r)} :: decode(encode(r)) == Some(r))
    }
  }

  type Values = map<Hash, Bytes>

  /** Values lie under their hashes. */
  ghost predicate Addressed(s: Scheme, values: Values) {
    forall h {:trigger values[h]} :: h in values ==> s.hash(values[h]) == h
  }

  /** An open file.  Read fills the buffer except at the end of the file. */
  class Reader {
    const data: Bytes
    var pos: nat

    constructor (data: Bytes)
      ensures this.data == data && pos == 0
    {
      this.data, pos := data, 0;
    }

    method Read(buffer: array<Byte>) returns (n: nat)
      requires pos <= |data|
      modifies this`pos, buffer
      ensures n == (if buffer.Length <= |data| - old(pos) then buffer.Length else |data| - old(pos))
      ensures pos == old(pos) + n && buffer[..n] == data[old(pos)..pos]
      ensures forall i :: n <= i < buffer.Length ==> buffer[i] == old(buffer[i])
    {
      n := 0;
      while n < buffer.Length && pos + n < |data|
        invariant pos == old(pos) && n <= buffer.Length && pos + n <= |data|
        invariant buffer[..n] == data[pos..pos + n]
        invariant forall i :: n <= i < buffer.Length ==> buffer[i] == old(buffer[i])
      {
        assert data[pos..pos + n + 1] == data[pos..pos + n] + [data[pos + n]];
        buffer[n] := data[pos + n];
        assert buffer[..n + 1] == buffer[..n] + [buffer[n]];
        n := n + 1;
      }
      pos := pos + n;
    }
  }

  /** The chain as a client sees it.  script says which of the coming requests succeed;
      those beyond it do. */
  class Client {
    const s: Scheme
    var values: Values
    var script: seq<bool>

    constructor (s: Scheme, values: Values, script: seq<bool>)
      ensures this.s == s && this.values == values && this.script == script
    {
      this.s, this.values, this.script := s, values, script;
    }

    method Next() returns (ok: bool)
      modifies this`script
      ensures ok == (old(script) == [] || old(script)[0])
              && script == if old(script) == [] then [] else old(script)[1..]
    {
      ok := script == [] || script[0];
      script := if script == [] then [] else script[1..];
    }

    method Resolve(h: Hash) returns (found: Result<Option<Bytes>, TreeError>)
      modifies this`script
      ensures found.Ok? <==> old(script) == [] || old(script)[0]
      ensures found.Ok? ==> found.value == if h in values then Some(values[h]) else None
      ensures old(script) == [] ==> script == []
    {
      var ok := Next();
      found := if !ok then Err(ErrClient) else if h in values then Ok(Some(values[h])) else Ok(None);
    }

    /** A SetTx: stores a value under its hash. */
    method Issue(value: Bytes) returns (ok: bool)
      requires Addressed(s, values)
      modifies this
      ensures Addressed(s, values) && values == if ok then old(values)[s.hash(value) := value] else old(values)
      ensures old(script) == [] ==> ok && script == []
    {
      ok := Next();
      if ok {
        values := values[s.hash(value) := value];
      }
    }
  }

  /** The values under the hashes, one after the other. */
  function Concat(values: Values, hashes: seq<Hash>): Bytes
    requires forall i :: 0 <= i < |hashes| ==> hashes[i] in values
  {
    if hashes == [] then [] else Concat(values, hashes[..|hashes| - 1]) + values[hashes[|hashes| - 1]]
  }

  /** Storing more values under their hashes changes no value. */
  ghost predicate Grows(before: Values, after: Values) {
    forall h {:trigger h in after} {:trigger h in before} :: h in before ==> h in after && after[h] == before[h]
  }

  lemma {:induction false} ConcatGrows(before: Values, after: Values, hashes: seq<Hash>)
    requires Grows(before, after) && forall i :: 0 <= i < |hashes| ==> hashes[i] in before
    ensures forall i :: 0 <= i < |hashes| ==> hashes[i] in after
    ensures Concat(after, hashes) == Concat(before, hashes)
  {
    if hashes != [] {
      ConcatGrows(before, after, hashes[..|hashes| - 1]);
    }
  }

  lemma IssueGrows(s: Scheme, before: Values, value: Bytes)
    requires s.Ok() && Addressed(s, before)
    ensures Grows(before, before[s.hash(value) := value])
  {
    if s.hash(value) in before {
      assert s.hash(before[s.hash(value)]) == s.hash(value);
    }
  }

  /** The file that a root stands for, if everything it needs is there. */
  ghost function FileOf(s: Scheme, values: Values, root: Hash): Option<Bytes> {
    if root !in values || s.decode(values[root]).None? then None
    else
      var r := s.decode(values[root]).value;
      if r.contents != [] then Some(r.contents)
      else if r.children == [] || !forall i :: 0 <= i < |r.children| ==> r.children[i] in values then None
      else Some(Concat(values, r.children))
  }

  function Zeros(n: nat): Bytes { seq(n, _ => 0) }

  /** Stores one chunk, unless it is known to be stored already. */
  method UploadChunk(cli: Client, chunk: Bytes, uploaded: set<Hash>) returns (ok: bool, more: set<Hash>)
    requires cli.s.Ok() && Addressed(cli.s, cli.values) && uploaded <= cli.values.Keys
    modifies cli
    ensures Addressed(cli.s, cli.values) && Grows(old(cli.values), cli.values)
    ensures old(cli.script) == [] ==> ok && cli.script == []
    ensures ok ==> more <= cli.values.Keys && cli.s.hash(chunk) in cli.values && cli.values[cli.s.hash(chunk)] == chunk
  {
    var k := cli.s.hash(chunk);
    ok, more := true, uploaded;
    if k !in uploaded {
      var found := cli.Resolve(k);
      if found.Ok? && found.value.Some? {
        more := more + {k};
      } else {
        IssueGrows(cli.s, cli.values, chunk);
        ok := cli.Issue(chunk);
        if !ok {
          return;
        }
        more := more + {k};
      }
    }
    assert cli.s.hash(cli.values[k]) == k;
  }

  /** The hashes cover the first n bytes of the file. */
  ghost predicate Covers(values: Values, hashes: seq<Hash>, data: Bytes, n: nat)
    requires n <= |data|
  {
    (forall i :: 0 <= i < |hashes| ==> hashes[i] in values) && Concat(values, hashes) == data[..n]
  }

  lemma CoversNext(before: Values, after: Values, hashes: seq<Hash>, data: Bytes, n: nat, m: nat, k: Hash)
    requires n <= m <= |data| && Covers(before, hashes, data, n) && Grows(before, after)
    requires k in after && after[k] == data[n..m]
    ensures Covers(after, hashes + [k], data, m)
  {
    ConcatGrows(before, after, hashes);
    assert (hashes + [k])[..|hashes|] == hashes;
    assert data[..m] == data[..n] + data[n..m];
  }

  /** The file in chunks of the size; the last one may be shorter. */
  function Chunks(data: Bytes, size: nat): seq<Bytes>
    requires size > 0
    decreases |data|
  {
    if data == [] then []
    else if |data| <= size then [data]
    else [data[..size]] + Chunks(data[size..], size)
  }

  function Flat(chunks: seq<Bytes>): Bytes {
    if chunks == [] then [] else chunks[0] + Flat(chunks[1..])
  }

  /** The chunks are the file, and all but the last are full. */
  lemma {:induction false} ChunksAreFull(data: Bytes, size: nat, i: nat)
    requires size > 0 && i < |Chunks(data, size)|
    ensures var chunks := Chunks(data, size);
            && Flat(chunks) == data
            && (if i < |chunks| - 1 then |chunks[i]| == size else 0 < |chunks[i]| <= size)
    decreases |data|
  {
    if |data| <= size {
      assert Flat([data]) == data + Flat([]);
    } else {
      assert data[size..] != [] && Chunks(data[size..], size) != [];
      ChunksAreFull(data[size..], size, if i == 0 then 0 else i - 1);
      assert Chunks(data, size)[1..] == Chunks(data[size..], size);
      assert data == data[..size] + data[size..];
    }
  }

  lemma NextChunk(data: Bytes, size: nat, start: nat, end: nat)
    requires size > 0 && start < end <= |data|
    requires end == if size <= |data| - start then start + size else |data|
    ensures Chunks(data[start..], size) == [data[start..end]] + Chunks(data[end..], size)
  {
    var rest := data[start..];
    if |rest| <= size {
      assert data[start..end] == rest && data[end..] == [];
    } else {
      assert rest[..size] == data[start..end] && rest[size..] == data[end..];
    }
  }

  /** The hashes are those of the chunks. */
  predicate HashedAs(s: Scheme, hashes: seq<Hash>, chunks: seq<Bytes>) {
    |hashes| == |chunks| && forall i :: 0 <= i < |hashes| ==> hashes[i] == s.hash(chunks[i])
  }

  /** The hashes are those of the chunks before the position. */
  ghost predicate Chunked(s: Scheme, data: Bytes, size: nat, hashes: seq<Hash>, pos: nat)
    requires pos <= |data|
  {
    size > 0 ==>
      var chunks, n := Chunks(data, size), |hashes|;
      n <= |chunks| && HashedAs(s, hashes, chunks[..n]) && chunks[n..] == Chunks(data[pos..], size)
  }

  lemma ChunkedAtStart(s: Scheme, data: Bytes, size: nat)
    ensures Chunked(s, data, size, [], 0)
  {
    assert data[0..] == data;
  }

  lemma ChunkedNext(s: Scheme, data: Bytes, size: nat, hashes: seq<Hash>, start: nat, end: nat)
    requires size > 0 && start < end <= |data| && Chunked(s, data, size, hashes, start)
    requires end == if size <= |data| - start then start + size else |data|
    ensures Chunked(s, data, size, hashes + [s.hash(data[start..end])], end)
  {
    NextChunk(data, size, start, end);
    var chunks, n := Chunks(data, size), |hashes|;
    assert chunks[n..][0] == chunks[n] == data[start..end] && chunks[n + 1..] == chunks[n..][1..];
    assert chunks[..n + 1] == chunks[..n] + [chunks[n]];
  }

  lemma ChunkedAtEnd(s: Scheme, data: Bytes, size: nat, hashes: seq<Hash>, pos: nat)
    requires pos <= |data| && Chunked(s, data, size, hashes, pos)
    ensures size > 0 && pos == |data| ==> HashedAs(s, hashes, Chunks(data, size))
  {
    if size > 0 && pos == |data| {
      assert Chunks(data[pos..], size) == [];
      assert Chunks(data, size)[..|hashes|] == Chunks(data, size);
    }
  }

  /** The chunk loop of Upload: either the whole file is covered by the hashes, or it is
      small and still in the buffer; an empty file leaves the buffer as it was. */
  method UploadChunks(cli: Client, f: Reader, buffer: array<Byte>) returns (hashes: Option<seq<Hash>>, len: nat)
    requires cli.s.Ok() && Addressed(cli.s, cli.values) && f.pos == 0
    modifies cli, f, buffer
    ensures Addressed(cli.s, cli.values) && Grows(old(cli.values), cli.values) && len <= buffer.Length
    ensures (buffer.Length == 0 ==> hashes == Some([])) && (old(cli.script) == [] ==> hashes.Some? && cli.script == [])
    ensures hashes.Some? && hashes.value != [] ==>
            && 0 < buffer.Length <= |f.data| && Covers(cli.values, hashes.value, f.data, |f.data|)
            && HashedAs(cli.s, hashes.value, Chunks(f.data, buffer.Length))
    ensures hashes == Some([]) ==>
            if f.data == [] || buffer.Length == 0 then len == buffer.Length && buffer[..] == old(buffer[..])
                                   else len == |f.data| < buffer.Length && buffer[..len] == f.data
  {
    var done: seq<Hash>, uploaded: set<Hash>, shouldExit := [], {}, false;
    len := buffer.Length;
    ChunkedAtStart(cli.s, f.data, buffer.Length);
    while !shouldExit
      invariant Addressed(cli.s, cli.values) && Grows(old(cli.values), cli.values) && uploaded <= cli.values.Keys
      invariant f.pos <= |f.data| && len <= buffer.Length && Covers(cli.values, done, f.data, f.pos)
      invariant (!shouldExit ==> len == buffer.Length) && (old(cli.script) == [] ==> cli.script == [])
      invariant done == [] ==> f.pos == 0 && buffer[..] == old(buffer[..]) && !shouldExit
      invariant done != [] ==> 0 < buffer.Length <= |f.data|
      invariant shouldExit ==> f.pos == |f.data|
      invariant Chunked(cli.s, f.data, buffer.Length, done, f.pos)
      decreases !shouldExit, |f.data| - f.pos
    {
      ghost var start, before := f.pos, cli.values;
      var read := f.Read(buffer);
      if read == 0 {
        break;
      }
      if read < buffer.Length {
        shouldExit, len := true, read;
        if done == [] {
          break;
        }
      }
      var ok;
      ok, uploaded := UploadChunk(cli, buffer[..len], uploaded);
      if !ok {
        return None, len;
      }
      CoversNext(before, cli.values, done, f.data, start, f.pos, cli.s.hash(buffer[..len]));
      ChunkedNext(cli.s, f.data, buffer.Length, done, start, f.pos);
      done := done + [cli.s.hash(buffer[..len])];
    }
    if done != [] {
      ChunkedAtEnd(cli.s, f.data, buffer.Length, done, f.pos);
    }
    hashes := Some(done);
  }

  lemma RootStands(s: Scheme, values: Values, root: Hash, r: Root)
    requires s.Ok() && root in values && values[root] == s.encode(r)
    requires forall i :: 0 <= i < |r.children| ==> r.children[i] in values
    ensures FileOf(s, values, root) ==
            if r.contents != [] then Some(r.contents)
            else if r.children == [] then None
            else Some(Concat(values, r.children))
  {
    assert s.decode(s.encode(r)) == Some(r);
  }

  /** How a file is laid out: small ones in the root, others as a list of hashes of its chunks. */
  predicate Listed(s: Scheme, data: Bytes, size: nat, r: Root)
    requires size > 0
  {
    if data == [] then r == Root(Zeros(size), [])
    else if |data| < size then r == Root(data, [])
    else r.contents == [] && HashedAs(s, r.children, Chunks(data, size))
  }

  /** Upload.  When it succeeds, the root stands for the file, unless the file is empty:
      then it stands for a chunk of zeros.  A chunk size of zero uploads nothing. */
  method Upload(cli: Client, f: Reader, chunkSize: nat) returns (root: Result<Hash, TreeError>)
    requires cli.s.Ok() && Addressed(cli.s, cli.values) && f.pos == 0
    modifies cli, f
    ensures Addressed(cli.s, cli.values) && Grows(old(cli.values), cli.values)
    ensures chunkSize == 0 ==> root == Err(ErrEmpty)
    ensures chunkSize > 0 && old(cli.script) == [] ==> root.Ok?
    ensures root.Ok? ==>
            FileOf(cli.s, cli.values, root.value) == Some(if f.data == [] then Zeros(chunkSize) else f.data)
    ensures root.Ok? ==>
            && chunkSize > 0 && root.value in cli.values && cli.s.decode(cli.values[root.value]).Some?
            && Listed(cli.s, f.data, chunkSize, cli.s.decode(cli.values[root.value]).value)
  {
    var buffer := new Byte[chunkSize](_ => 0);
    assert buffer[..] == Zeros(chunkSize);
    var hashes, len := UploadChunks(cli, f, buffer);
    if hashes.None? {
      return Err(ErrClient);
    }
    var r := Root([], []);
    if hashes.value == [] {
      if len == 0 {
        return Err(ErrEmpty);
      }
      assert buffer[..buffer.Length] == buffer[..];
      r := r.(contents := buffer[..len]);
    } else {
      assert f.data[..|f.data|] == f.data;
      r := r.(children := hashes.value);
    }
    ghost var before := cli.values;
    var rb := cli.s.encode(r);
    IssueGrows(cli.s, cli.values, rb);
    var ok := cli.Issue(rb);
    if !ok {
      return Err(ErrClient);
    }
    if r.children != [] {
      ConcatGrows(before, cli.values, r.children);
    }
    RootStands(cli.s, cli.values, cli.s.hash(rb), r);
    root := Ok(cli.s.hash(rb));
  }

  /** Download: writes what the root stands for, as long as no request fails. */
  method Download(cli: Client, root: Hash) returns (written: Bytes, err: Option<TreeError>)
    modifies cli`script
    ensures err.None? ==> FileOf(cli.s, cli.values, root) == Some(written)
    ensures old(cli.script) == [] && FileOf(cli.s, cli.values, root).Some? ==> err.None?
  {
    written := [];
    var found := cli.Resolve(root);
    if found.Err? {
      return written, Some(ErrClient);
    }
    if found.value.None? {
      return written, Some(ErrMissing);
    }
    var decoded := cli.s.decode(found.value.value);
    if decoded.None? {
      return written, Some(ErrRead);
    }
    var r := decoded.value;
    if r.contents != [] {
      return r.contents, None;
    }
    if r.children == [] {
      return written, Some(ErrEmpty);
    }
    for i := 0 to |r.children|
      invariant forall j :: 0 <= j < i ==> r.children[j] in cli.values
      invariant written == Concat(cli.values, r.children[..i])
      invariant old(cli.script) == [] ==> cli.script == []
    {
      var chunk := cli.Resolve(r.children[i]);
      if chunk.Err? {
        return written, Some(ErrClient);
      }
      if chunk.value.None? {
        return written, Some(ErrMissing);
      }
      assert r.children[..i + 1][..i] == r.children[..i];
      written := written + chunk.value.value;
    }
    assert r.children[..|r.children|] == r.children;
    err := None;
  }

  /** The round trip, with a chain that may refuse requests during the upload: whenever the
      upload succeeds and the download is served, the download is the file exactly if the
      file is not empty. */
  method UploadThenDownload(cli: Client, data: Bytes, chunkSize: nat)
    returns (root: Result<Hash, TreeError>, written: Bytes, err: Option<TreeError>)
    requires cli.s.Ok() && Addressed(cli.s, cli.values)
    modifies cli
    ensures root.Ok? ==> err.None? && (written == data <==> data != [])
    ensures root.Ok? && data == [] ==> written == Zeros(chunkSize) && chunkSize > 0
  {
    var f := new Reader(data);
    root := Upload(cli, f, chunkSize);
    if root.Err? {
      return root, [], Some(root.error);
    }
    cli.script := [];
    written, err := Download(cli, root.value);
  }
}

/**
 * The packing chain: a file behind a counting and hashing writer, an encryptor over
 * it and a compressor over that, filled from a stream and read back. The codecs
 * and the digest are parameters.
 */
module Packing {
  import opened Core
  import opened Filenames

  type Byte = b: int | 0 <= b < 256
  type Bytes = seq<Byte>

  datatype Codecs = Codecs(
    compress: (Compression, Option<int>, Bytes) -> Bytes,
    decompress: (Compression, Bytes) -> Option<Bytes>,
    encrypt: (string, Bytes) -> Bytes,
    decrypt: (string, Bytes) -> Option<Bytes>,
    sha256: Bytes -> string)

  /** Decoding what was encoded, at any level and with the same passphrase, returns it. */
  ghost predicate Inverse(k: Codecs) {
    && (forall c, level, x :: k.decompress(c, k.compress(c, level, x)) == Some(x))
    && (forall passphrase, x :: k.decrypt(passphrase, k.encrypt(passphrase, x)) == Some(x))
  }

  /** A compression of none is one the program does not know. */
  datatype PackOptions = PackOptions(compression: Option<Compression>, level: int, encryption: Encryption, passphrase: string)

  const PASSTHROUGH := PackOptions(Some(NoCompression), 0, NoEncryption, "")

  /** The level given to the compressor; none is its own default. */
  function EffectiveLevel(c: Compression, level: int): Option<int> {
    if level <= 0 then None
    else if c.Gzip? then Some(Min(level, 9))
    else Some(if level == 1 then 1 else if level <= 4 then 2 else if level <= 9 then 3 else 4)
  }

  // ---------------------------------------------------------------------------
  // What packing means
  // ---------------------------------------------------------------------------

  predicate CanPack(opts: PackOptions) {
    opts.compression.Some? && (opts.encryption.Age? ==> opts.passphrase != "")
  }

  /** Compressed first, then encrypted. */
  function Packed(k: Codecs, opts: PackOptions, x: Bytes): Bytes
    requires CanPack(opts)
  {
    var c := opts.compression.value;
    var y := if c.NoCompression? then x else k.compress(c, EffectiveLevel(c, opts.level), x);
    if opts.encryption.Age? then k.encrypt(opts.passphrase, y) else y
  }

  // ---------------------------------------------------------------------------
  // The chain of writers, on values
  // ---------------------------------------------------------------------------

  datatype Coder = Encryptor(passphrase: string) | Compressor(c: Compression, level: int)

  function Encode(k: Codecs, coder: Coder, x: Bytes): Bytes {
    match coder
    case Encryptor(passphrase) => k.encrypt(passphrase, x)
    case Compressor(c, level) => k.compress(c, EffectiveLevel(c, level), x)
  }

  /** A writer keeps what it was given until it is closed. */
  datatype Layer = Layer(coder: Coder, pending: Bytes, closed: bool)

  predicate AllOpen(layers: seq<Layer>) {
    forall i :: 0 <= i < |layers| ==> !layers[i].closed
  }

  /** Layer zero writes to the file, each other layer to the one below it. */
  datatype Chain = Chain(layers: seq<Layer>, file: Bytes)

  /** A write below layer `n`; a closed writer takes nothing. */
  function PutBelow(ch: Chain, n: nat, x: Bytes): Chain
    requires n <= |ch.layers|
  {
    if n == 0 then ch.(file := ch.file + x)
    else if ch.layers[n - 1].closed then ch
    else ch.(layers := ch.layers[n - 1 := ch.layers[n - 1].(pending := ch.layers[n - 1].pending + x)])
  }

  function CloseLayer(k: Codecs, ch: Chain, i: nat): Chain
    requires i < |ch.layers|
  {
    var l := ch.layers[i];
    if l.closed then ch
    else PutBelow(ch.(layers := ch.layers[i := l.(closed := true, pending := [])]), i, Encode(k, l.coder, l.pending))
  }

  /** Closes layers n - 1, ..., 0. */
  function CloseDown(k: Codecs, ch: Chain, n: nat): Chain
    requires n <= |ch.layers|
    decreases n
  {
    if n == 0 then ch else CloseDown(k, CloseLayer(k, ch, n - 1), n - 1)
  }

  /** What the lowest `n` layers turn a final write of `x` into. */
  function Out(k: Codecs, layers: seq<Layer>, n: nat, x: Bytes): Bytes
    requires n <= |layers|
  {
    if n == 0 then x else Out(k, layers, n - 1, Encode(k, layers[n - 1].coder, layers[n - 1].pending + x))
  }

  lemma {:induction false} OutIgnoresAbove(k: Codecs, a: seq<Layer>, b: seq<Layer>, n: nat, x: Bytes)
    requires n <= |a| && n <= |b| && a[..n] == b[..n]
    ensures Out(k, a, n, x) == Out(k, b, n, x)
  {
    if n > 0 {
      assert a[n - 1] == a[..n][n - 1] && b[n - 1] == b[..n][n - 1];
      assert a[..n - 1] == a[..n][..n - 1] && b[..n - 1] == b[..n][..n - 1];
      OutIgnoresAbove(k, a, b, n - 1, Encode(k, a[n - 1].coder, a[n - 1].pending + x));
    }
  }

  lemma {:induction false} NothingWritten(ch: Chain, n: nat)
    requires n <= |ch.layers|
    ensures PutBelow(ch, n, []) == ch
  {
    assert ch.file + [] == ch.file;
    if n > 0 {
      assert ch.layers[n - 1].pending + [] == ch.layers[n - 1].pending;
      assert PutBelow(ch, n, []).layers == ch.layers;
    }
  }

  lemma {:induction false} WritesAddUp(ch: Chain, n: nat, x: Bytes, y: Bytes)
    requires n <= |ch.layers| && (n > 0 ==> !ch.layers[n - 1].closed)
    ensures |PutBelow(ch, n, x).layers| == |ch.layers|
    ensures PutBelow(PutBelow(ch, n, x), n, y) == PutBelow(ch, n, x + y)
  {
    if n > 0 {
      var l := ch.layers[n - 1];
      assert l.pending + x + y == l.pending + (x + y);
      assert PutBelow(PutBelow(ch, n, x), n, y).layers == PutBelow(ch, n, x + y).layers;
    } else {
      assert ch.file + x + y == ch.file + (x + y);
    }
  }

  /** Closed from the top, every layer hands its bytes to one that is still open: nothing is lost. */
  lemma {:induction false} ClosingDownDeliversEverything(k: Codecs, ch: Chain, n: nat)
    requires n <= |ch.layers| && forall i :: 0 <= i < n ==> !ch.layers[i].closed
    ensures CloseDown(k, ch, n).file == ch.file + Out(k, ch.layers, n, [])
    decreases n
  {
    if n > 0 {
      var l := ch.layers[n - 1];
      assert l.pending + [] == l.pending;
      var x := Encode(k, l.coder, l.pending);
      var next := CloseLayer(k, ch, n - 1);
      ClosingDownDeliversEverything(k, next, n - 1);
      if n > 1 {
        var below := ch.layers[n - 2];
        assert next.layers[n - 2].pending + [] == below.pending + x;
        assert Out(k, ch.layers, n, []) == Out(k, ch.layers, n - 1, x);
        OutIgnoresAbove(k, next.layers, ch.layers, n - 2, Encode(k, below.coder, below.pending + x));
      }
    }
  }

  /** Closed from the bottom, the compressor finds the encryptor closed: the file never sees the payload. */
  lemma {:induction false} ClosingUpLosesThePayload(k: Codecs, passphrase: string, c: Compression, level: int, x: Bytes)
    requires Inverse(k)
    ensures var ch := Chain([Layer(Encryptor(passphrase), [], false), Layer(Compressor(c, level), x, false)], []);
      var file := CloseLayer(k, CloseLayer(k, ch, 0), 1).file;
      && file == k.encrypt(passphrase, [])
      && (file == CloseDown(k, ch, 2).file <==> k.compress(c, EffectiveLevel(c, level), x) == [])
  {
    var ch := Chain([Layer(Encryptor(passphrase), [], false), Layer(Compressor(c, level), x, false)], []);
    ClosingDownDeliversEverything(k, ch, 2);
    var y := k.compress(c, EffectiveLevel(c, level), x);
    assert x + [] == x && [] + y == y;
    assert Out(k, ch.layers, 2, []) == Out(k, ch.layers, 1, y) == Out(k, ch.layers, 0, k.encrypt(passphrase, y));
    var first := CloseLayer(k, ch, 0);
    assert first.file == k.encrypt(passphrase, []);
    assert CloseDown(k, ch, 2).file == k.encrypt(passphrase, y);
    assert k.decrypt(passphrase, k.encrypt(passphrase, [])) == Some([]);
    assert k.decrypt(passphrase, k.encrypt(passphrase, y)) == Some(y);
  }

  // ---------------------------------------------------------------------------
  // The writers
  // ---------------------------------------------------------------------------

  /** The spool file, which can take `room` bytes, behind its counter and hash. */
  class CountingWriter {
    const room: nat
    var file: Bytes
    var n: nat
    /** What the hash has been fed. */
    var hashed: Bytes
    /** All it was asked to write, as on a disk without end. */
    ghost var sent: Bytes

    ghost predicate Valid()
      reads this
    {
      file == sent[..Min(|sent|, room)] && n == |file| && hashed == file
    }

    ghost predicate Fits()
      reads this
    {
      |sent| <= room
    }

    constructor (room: nat)
      ensures Valid() && Fits() && this.room == room && file == [] && sent == []
    {
      this.room, file, n, hashed, sent := room, [], 0, [], [];
    }

    /** The file takes what it has room for; a short write counts and hashes just those bytes. */
    method Write(p: Bytes) returns (written: nat, ok: bool)
      requires Valid()
      modifies this
      ensures Valid() && sent == old(sent) + p
      ensures written <= |p| && file == old(file) + p[..written] && (ok <==> written == |p|)
      ensures old(Fits()) ==> (ok <==> Fits())
    {
      written := if |p| < room - |file| then |p| else room - |file|;
      ok := written == |p|;
      ghost var (before, after) := (sent, sent + p);
      assert before[..Min(|before|, room)] + p[..written] == after[..Min(|after|, room)];
      file := file + p[..written];
      n := n + written;
      if written > 0 {
        hashed := hashed + p[..written];
      } else {
        assert file == hashed;
      }
      sent := after;
    }
  }

  class PackWriter {
    const k: Codecs
    const sink: CountingWriter
    var layers: seq<Layer>
    /** The layers to close, in the order they were made. */
    var closers: seq<nat>

    ghost predicate Valid()
      reads this, sink
    {
      sink.Valid() && |closers| <= |layers| && forall i :: 0 <= i < |closers| ==> closers[i] == i
    }

    ghost function State(): Chain
      reads this, sink
    {
      Chain(layers, sink.sent)
    }

    /** An error is met exactly when the disk fills up. */
    twostate predicate ReportsFull(ok: bool)
      reads this, sink
    {
      old(sink.sent) <= sink.sent && (old(sink.Fits()) ==> (ok <==> sink.Fits()))
    }

    constructor (k: Codecs, sink: CountingWriter)
      requires sink.Valid()
      ensures Valid() && this.k == k && this.sink == sink && layers == [] && closers == []
    {
      this.k, this.sink, layers, closers := k, sink, [], [];
    }

    method Add(coder: Coder)
      requires Valid() && |closers| == |layers|
      modifies this
      ensures Valid() && |closers| == |layers| && layers == old(layers) + [Layer(coder, [], false)]
    {
      closers := closers + [|layers|];
      layers := layers + [Layer(coder, [], false)];
    }

    method WriteBelow(i: nat, x: Bytes) returns (ok: bool)
      requires Valid() && i <= |layers|
      modifies this`layers, sink
      ensures Valid() && State() == PutBelow(old(State()), i, x) && ReportsFull(ok)
    {
      ghost var before := State();
      ok := true;
      if i == 0 {
        var _, fitted := sink.Write(x);
        ok := fitted;
        assert State() == before.(file := before.file + x);
      } else if layers[i - 1].closed {
        assert PutBelow(before, i, x) == before;
        assert State() == before;
      } else {
        layers := layers[i - 1 := layers[i - 1].(pending := layers[i - 1].pending + x)];
        assert State() == before.(layers := layers);
      }
    }

    method CloseOne(i: nat) returns (ok: bool)
      requires Valid() && i < |layers|
      modifies this`layers, sink
      ensures Valid() && State() == CloseLayer(k, old(State()), i) && |layers| == old(|layers|) && ReportsFull(ok)
    {
      var l := layers[i];
      ok := true;
      if !l.closed {
        layers := layers[i := l.(closed := true, pending := [])];
        assert |layers| == old(|layers|);
        ok := WriteBelow(i, Encode(k, l.coder, l.pending));
      }
    }

    /** Closes every layer, the last made first, also after one of them has failed. */
    method Close() returns (ok: bool)
      requires Valid() && |closers| == |layers|
      modifies this, sink
      ensures Valid() && closers == [] && State() == CloseDown(k, old(State()), old(|layers|)) && ReportsFull(ok)
    {
      var i: nat := |closers|;
      ok := true;
      while i > 0
        invariant Valid() && |closers| == |layers| == old(|layers|) && i <= |closers|
        invariant CloseDown(k, State(), i) == CloseDown(k, old(State()), old(|layers|))
        invariant ReportsFull(ok)
      {
        i := i - 1;
        var closed := CloseOne(closers[i]);
        ok := ok && closed;
      }
      closers := [];
    }
  }

  /** The chain over a writer, or none when the options cannot be packed with. */
  method NewPackWriter(k: Codecs, sink: CountingWriter, opts: PackOptions) returns (w: Option<PackWriter>)
    requires sink.Valid() && sink.sent == []
    modifies sink
    ensures w.Some? <==> CanPack(opts)
    ensures w.Some? ==> fresh(w.value) && w.value.Valid() && w.value.k == k && w.value.sink == sink && sink.sent == []
    ensures w.Some? ==> w.value.layers == Layers(opts) && |w.value.closers| == |w.value.layers|
  {
    if opts.encryption.Age? && opts.passphrase == "" {
      return None;
    }
    var chain := new PackWriter(k, sink);
    if opts.encryption.Age? {
      chain.Add(Encryptor(opts.passphrase));
    }
    match opts.compression {
      case None =>
        var _ := chain.Close();
        return None;
      case Some(NoCompression) =>
      case Some(c) =>
        chain.Add(Compressor(c, opts.level));
    }
    return Some(chain);
  }

  function Layers(opts: PackOptions): seq<Layer>
    requires CanPack(opts)
  {
    (if opts.encryption.Age? then [Layer(Encryptor(opts.passphrase), [], false)] else [])
    + (if opts.compression.value.NoCompression? then [] else [Layer(Compressor(opts.compression.value, opts.level), [], false)])
  }

  lemma {:induction false} LayersOpen(opts: PackOptions)
    requires CanPack(opts)
    ensures NothingPending(Layers(opts), |Layers(opts)|)
    ensures AllOpen(Layers(opts))
  {
  }

  lemma {:induction false} FilledChainIsPacked(k: Codecs, opts: PackOptions, x: Bytes)
    requires CanPack(opts)
    ensures var ch := PutBelow(Chain(Layers(opts), []), |Layers(opts)|, x);
      CloseDown(k, ch, |ch.layers|).file == Packed(k, opts, x)
  {
    var ch := PutBelow(Chain(Layers(opts), []), |Layers(opts)|, x);
    ClosingDownDeliversEverything(k, ch, |ch.layers|);
    assert [] + x == x && x + [] == x;
    var c := opts.compression.value;
    var y := k.compress(c, EffectiveLevel(c, opts.level), x);
    assert [] + y == y;
    if |ch.layers| == 2 {
      assert Out(k, ch.layers, 2, []) == Out(k, ch.layers, 1, y) == Out(k, ch.layers, 0, k.encrypt(opts.passphrase, y));
    } else if |ch.layers| == 1 {
      assert Out(k, ch.layers, 1, []) == Out(k, ch.layers, 0, Encode(k, ch.layers[0].coder, x));
    }
  }

  // ---------------------------------------------------------------------------
  // The spool
  // ---------------------------------------------------------------------------

  function Joined(parts: seq<Bytes>): Bytes {
    if parts == [] then [] else Joined(parts[..|parts| - 1]) + parts[|parts| - 1]
  }

  lemma {:induction false} JoinedGrows(parts: seq<Bytes>, i: nat)
    requires i <= |parts|
    ensures |Joined(parts[..i])| <= |Joined(parts)|
  {
    if i == |parts| {
      assert parts[..i] == parts;
    } else {
      assert parts[..|parts| - 1][..i] == parts[..i];
      JoinedGrows(parts[..|parts| - 1], i);
    }
  }

  /** What reaches the file while copying is no longer than the packed whole, so a disk too small for it is too small for that. */
  lemma {:induction false} FullBeforeTheEnd(k: Codecs, opts: PackOptions, parts: seq<Bytes>, i: nat)
    requires CanPack(opts) && i <= |parts|
    ensures |PutBelow(Chain(Layers(opts), []), |Layers(opts)|, Joined(parts[..i])).file| <= |Packed(k, opts, Joined(parts))|
  {
    JoinedGrows(parts, i);
  }

  /** Where filling fails apart from a full disk: after that many parts, when closing the chain or when syncing the file. */
  datatype Fault = NoFault | AtRead(n: nat) | AtClose | AtSync

  predicate Passes(fault: Fault, parts: nat) {
    fault.NoFault? || (fault.AtRead? && fault.n >= parts)
  }

  /** Copies a stream into the top of a chain, until the end or the first error. */
  method Copy(w: PackWriter, parts: seq<Bytes>, fault: Fault) returns (n: nat, copied: nat, ok: bool)
    requires w.Valid() && w.sink.Fits() && AllOpen(w.layers)
    modifies w`layers, w.sink
    ensures w.Valid() && |w.layers| == old(|w.layers|) && copied <= |parts|
    ensures w.State() == PutBelow(old(w.State()), |w.layers|, Joined(parts[..copied]))
    ensures ok ==> copied == |parts| && n == |Joined(parts)| && w.sink.Fits() && (fault.AtRead? ==> fault.n >= |parts|)
    ensures !ok ==> (fault.AtRead? && fault.n < |parts|) || !w.sink.Fits()
  {
    n, copied := 0, 0;
    ghost var (start, top) := (w.State(), |w.layers|);
    NothingWritten(start, top);
    hide PutBelow;
    while copied < |parts|
      invariant copied <= |parts| && w.Valid() && |w.layers| == top && w.sink.Fits()
      invariant w.State() == PutBelow(start, top, Joined(parts[..copied]))
      invariant n == |Joined(parts[..copied])|
      invariant fault.AtRead? ==> copied <= fault.n
    {
      if fault == AtRead(copied) {
        return n, copied, false;
      }
      n := n + |parts[copied]|;
      WritesAddUp(start, top, Joined(parts[..copied]), parts[copied]);
      var took := w.WriteBelow(|w.layers|, parts[copied]);
      assert parts[..copied + 1][..copied] == parts[..copied];
      copied := copied + 1;
      if !took {
        return n, copied, false;
      }
    }
    assert parts[..|parts|] == parts;
    ok := true;
  }

  class Spool {
    var file: Bytes
    var rawBytes: nat
    var packedBytes: nat
    var sha256: string

    constructor ()
      ensures file == [] && rawBytes == 0 && packedBytes == 0 && sha256 == ""
    {
      file, rawBytes, packedBytes, sha256 := [], 0, 0, "";
    }

    /**
     * Fails exactly when the options cannot be packed with, something fails on the way or the packed bytes do not
     * fit on the disk. Only a fill that went through records anything: the raw count is that of the bytes read, the
     * packed count and the digest are those of the file.
     */
    method Fill(k: Codecs, parts: seq<Bytes>, room: nat, fault: Fault, opts: PackOptions) returns (ok: bool)
      modifies this
      ensures ok <==> CanPack(opts) && Passes(fault, |parts|) && |Packed(k, opts, Joined(parts))| <= room
      ensures ok ==> file == Packed(k, opts, Joined(parts))
      ensures ok ==> rawBytes == |Joined(parts)| && packedBytes == |file| && sha256 == k.sha256(file)
      ensures !ok ==> rawBytes == old(rawBytes) && packedBytes == old(packedBytes) && sha256 == old(sha256)
    {
      var sink := new CountingWriter(room);
      file := [];
      var packed := NewPackWriter(k, sink, opts);
      if packed.None? {
        return false;
      }
      var w := packed.value;
      LayersOpen(opts);
      hide Packed, Layers, CloseDown, PutBelow, Joined;
      var n, copied, through := Copy(w, parts, fault);
      if !through {
        FullBeforeTheEnd(k, opts, parts, copied);
        var _ := w.Close();
        file := sink.file;
        return false;
      }
      assert parts[..copied] == parts;
      var closed := w.Close();
      file := sink.file;
      FilledChainIsPacked(k, opts, Joined(parts));
      if !closed || fault.AtClose? || fault.AtSync? {
        return false;
      }
      rawBytes, packedBytes, sha256 := n, sink.n, k.sha256(sink.hashed);
      return true;
    }
  }

  // ---------------------------------------------------------------------------
  // The chain of readers
  // ---------------------------------------------------------------------------

  datatype Decoder = Decryptor(passphrase: string) | Decompressor(c: Compression)

  function Decode(k: Codecs, d: Decoder, x: Bytes): Option<Bytes> {
    match d
    case Decryptor(passphrase) => k.decrypt(passphrase, x)
    case Decompressor(c) => k.decompress(c, x)
  }

  /** Everything read through the lowest `n` readers: reader zero reads the file, each other the one below it. */
  function ReadThrough(k: Codecs, readers: seq<Decoder>, n: nat, file: Bytes): Option<Bytes>
    requires n <= |readers|
  {
    if n == 0 then Some(file)
    else
      match ReadThrough(k, readers, n - 1, file)
      case None => None
      case Some(x) => Decode(k, readers[n - 1], x)
  }

  /** The reader that undoes a writer. */
  function Undoing(coder: Coder): Decoder {
    match coder
    case Encryptor(passphrase) => Decryptor(passphrase)
    case Compressor(c, _) => Decompressor(c)
  }

  ghost predicate Undoes(readers: seq<Decoder>, layers: seq<Layer>) {
    |readers| == |layers| && forall i :: 0 <= i < |layers| ==> readers[i] == Undoing(layers[i].coder)
  }

  ghost predicate NothingPending(layers: seq<Layer>, n: nat) {
    n <= |layers| && forall i :: 0 <= i < n ==> layers[i].pending == []
  }

  /** A stack of readers in the writers' order undoes a stack of writers of any height. */
  lemma {:induction false} ReadersUndoWriters(k: Codecs, layers: seq<Layer>, readers: seq<Decoder>, n: nat, x: Bytes)
    requires Inverse(k) && Undoes(readers, layers) && NothingPending(layers, n)
    ensures ReadThrough(k, readers, n, Out(k, layers, n, x)) == Some(x)
    decreases n
  {
    if n > 0 {
      var y := Encode(k, layers[n - 1].coder, x);
      assert layers[n - 1].pending + x == x;
      ReadersUndoWriters(k, layers, readers, n - 1, y);
      assert Decode(k, readers[n - 1], y) == Some(x);
    }
  }

  /** Writing through open layers and closing them from the top leaves a file that the readers turn back. */
  lemma {:induction false} WrittenIsReadBack(k: Codecs, layers: seq<Layer>, readers: seq<Decoder>, x: Bytes)
    requires Inverse(k) && Undoes(readers, layers) && NothingPending(layers, |layers|)
    requires AllOpen(layers)
    ensures ReadThrough(k, readers, |readers|, CloseDown(k, PutBelow(Chain(layers, []), |layers|, x), |layers|).file) == Some(x)
  {
    var (n, ch) := (|layers|, PutBelow(Chain(layers, []), |layers|, x));
    ReadersUndoWriters(k, layers, readers, n, x);
    assert [] + x == x;
    if n > 0 {
      ClosingDownDeliversEverything(k, ch, n);
      var l := layers[n - 1];
      assert ch.layers[n - 1].pending + [] == x && l.pending + x == x;
      OutIgnoresAbove(k, ch.layers, layers, n - 1, Encode(k, l.coder, x));
      assert [] + Out(k, ch.layers, n, []) == Out(k, layers, n, x);
    }
  }

  /** The readers an artifact's options ask for, or none. */
  function Readers(opts: PackOptions): seq<Decoder>
    requires CanPack(opts)
  {
    (if opts.encryption.Age? then [Decryptor(opts.passphrase)] else [])
    + (if opts.compression.value.NoCompression? then [] else [Decompressor(opts.compression.value)])
  }

  class UnpackReader {
    const k: Codecs
    const src: Bytes
    var readers: seq<Decoder>

    constructor (k: Codecs, src: Bytes)
      ensures this.k == k && this.src == src && readers == []
    {
      this.k, this.src, readers := k, src, [];
    }

    method Add(d: Decoder)
      modifies this
      ensures readers == old(readers) + [d]
    {
      readers := readers + [d];
    }

    /** Each reader pulls from the one below it; a decoding error anywhere ends the read. */
    method ReadBelow(i: nat) returns (x: Option<Bytes>)
      requires i <= |readers|
      ensures x == ReadThrough(k, readers, i, src)
    {
      if i == 0 {
        return Some(src);
      }
      var below := ReadBelow(i - 1);
      if below.None? {
        return None;
      }
      return Decode(k, readers[i - 1], below.value);
    }
  }

  /** The chain over a file, or none when there is no passphrase to decrypt with or the compression is not known. */
  method NewUnpackReader(k: Codecs, src: Bytes, opts: PackOptions) returns (r: Option<UnpackReader>)
    ensures r.Some? <==> CanPack(opts)
    ensures r.Some? ==> fresh(r.value) && r.value.k == k && r.value.src == src && r.value.readers == Readers(opts)
  {
    if opts.encryption.Age? && opts.passphrase == "" {
      return None;
    }
    var chain := new UnpackReader(k, src);
    if opts.encryption.Age? {
      chain.Add(Decryptor(opts.passphrase));
    }
    match opts.compression {
      case None =>
        return None;
      case Some(NoCompression) =>
      case Some(c) =>
        chain.Add(Decompressor(c));
    }
    return Some(chain);
  }

  /** The file read back with these options. */
  function Unpacked(k: Codecs, opts: PackOptions, file: Bytes): Option<Bytes> {
    if CanPack(opts) then ReadThrough(k, Readers(opts), |Readers(opts)|, file) else None
  }

  /** Options that differ in nothing but the level, which is not stored with an artifact. */
  predicate SamePacking(a: PackOptions, b: PackOptions) {
    a.compression == b.compression && a.encryption == b.encryption && (a.encryption.Age? ==> a.passphrase == b.passphrase)
  }

  /** Whatever the writers' chain packed, the readers' chain built from the same options gives back. */
  lemma {:induction false} UnpackingUndoesPacking(k: Codecs, opts: PackOptions, reading: PackOptions, x: Bytes)
    requires Inverse(k) && CanPack(opts) && SamePacking(opts, reading)
    ensures Unpacked(k, reading, Packed(k, opts, x)) == Some(x)
  {
    LayersOpen(opts);
    FilledChainIsPacked(k, opts, x);
    hide CloseDown, PutBelow, Packed;
    WrittenIsReadBack(k, Layers(opts), Readers(reading), x);
  }

  // ---------------------------------------------------------------------------
  // Downloading an artifact
  // ---------------------------------------------------------------------------

  /** How an artifact was packed, as far as its row knows. */
  datatype Stored = Stored(compression: Option<Compression>, encryption: Encryption)

  predicate PassesThrough(a: Stored) {
    a.compression == Some(NoCompression) && a.encryption.NoEncryption?
  }

  /** The passphrase given with the request, or else that of the job, which may be gone or have none. */
  function PassphraseFor(a: Stored, given: string, job: Option<string>): Option<string> {
    if given != "" || !a.encryption.Age? then Some(given)
    else if job.Some? && job.value != "" then job
    else None
  }

  method OpenArtifact(k: Codecs, body: Bytes, a: Stored, raw: bool, given: string, job: Option<string>)
    returns (content: Option<Bytes>)
    ensures raw || PassesThrough(a) ==> content == Some(body)
    ensures !raw && !PassesThrough(a) ==>
              content == match PassphraseFor(a, given, job)
                         case None => None
                         case Some(p) => Unpacked(k, PackOptions(a.compression, 0, a.encryption, p), body)
  {
    if raw {
      return Some(body);
    }
    if PassesThrough(a) {
      return Some(body);
    }
    var passphrase := given;
    if passphrase == "" && a.encryption.Age? {
      if job.None? || job.value == "" {
        return None;
      }
      passphrase := job.value;
    }
    var opts := PackOptions(a.compression, 0, a.encryption, passphrase);
    var reader := NewUnpackReader(k, body, opts);
    if reader.None? {
      return None;
    }
    content := reader.value.ReadBelow(|reader.value.readers|);
  }

  /**
   * A spooled stream downloaded later: the chain of writers, the file and the chain of readers together return the
   * bytes that were read from the source, with the passphrase of then, given again or still kept by the job.
   */
  method SpoolAndDownload(k: Codecs, spool: Spool, parts: seq<Bytes>, room: nat, opts: PackOptions, given: string, job: Option<string>)
    returns (content: Option<Bytes>)
    requires Inverse(k)
    modifies spool
    ensures var a := Stored(opts.compression, opts.encryption);
      CanPack(opts) && |Packed(k, opts, Joined(parts))| <= room
      && (opts.encryption.Age? ==> PassphraseFor(a, given, job) == Some(opts.passphrase)) ==>
        content == Some(Joined(parts))
  {
    var a := Stored(opts.compression, opts.encryption);
    var ok := spool.Fill(k, parts, room, NoFault, opts);
    if !ok {
      return None;
    }
    content := OpenArtifact(k, spool.file, a, false, given, job);
    if PassphraseFor(a, given, job).Some? {
      var p := PassphraseFor(a, given, job).value;
      if opts.encryption.Age? ==> p == opts.passphrase {
        UnpackingUndoesPacking(k, opts, PackOptions(a.compression, 0, a.encryption, p), Joined(parts));
      }
    }
  }

  // ---------------------------------------------------------------------------
  // Receiving a pushed payload
  // ---------------------------------------------------------------------------

  function Lower(s: string): string {
    if s == "" then "" else [if 'A' <= s[0] <= 'Z' then s[0] - 'A' + 'a' else s[0]] + Lower(s[1..])
  }

  predicate Accepts(want: string, digest: string) {
    Lower(TrimSpace(want)) == "" || Lower(TrimSpace(want)) == digest
  }

  /**
   * The digest a client's checksum is compared with is that of the bytes the
   * client sent, whether the server packs them or stores them as they came.
   */
  method Receive(k: Codecs, spool: Spool, parts: seq<Bytes>, room: nat, fault: Fault, packed: bool, opts: PackOptions, want: string)
    returns (ok: bool)
    modifies spool
    ensures ok <==> (packed || CanPack(opts)) && Passes(fault, |parts|) && Accepts(want, k.sha256(Joined(parts)))
                    && |if packed then Joined(parts) else Packed(k, opts, Joined(parts))| <= room
    ensures ok ==> spool.file == if packed then Joined(parts) else Packed(k, opts, Joined(parts))
    ensures ok ==> spool.sha256 == k.sha256(spool.file)
  {
    var rawSum := k.sha256(Joined(parts));
    var spoolOpts := if packed then PASSTHROUGH else opts;
    var filled := spool.Fill(k, parts, room, fault, spoolOpts);
    if !filled {
      return false;
    }
    var wanted := Lower(TrimSpace(want));
    if wanted != "" {
      var got := rawSum;
      if packed {
        got := spool.sha256;
      }
      if wanted != got {
        return false;
      }
    }
    return true;
  }

  /** A payload its client packed comes back unpacked when it was packed as its name says. */
  lemma {:induction false} PackedPayloadIsReadBack(k: Codecs, original: string, level: int, reading: int, passphrase: string, x: Bytes)
    requires Inverse(k) && (DetectPack(original).encryption.Age? ==> passphrase != "")
    ensures var d := DetectPack(original);
      Unpacked(k, PackOptions(Some(d.compression), reading, d.encryption, passphrase),
               Packed(k, PackOptions(Some(d.compression), level, d.encryption, passphrase), x)) == Some(x)
  {
    hide DetectPack;
    var d := DetectPack(original);
    UnpackingUndoesPacking(k, PackOptions(Some(d.compression), level, d.encryption, passphrase),
                           PackOptions(Some(d.compression), reading, d.encryption, passphrase), x);
  }
}

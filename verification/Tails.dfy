// The tails file store: objects addressed by the base58 form of their own hash.
module Tails {
  import opened Base58
  import opened Radix
  import opened Wrappers

  // An incremental hash such as SHA-256: `update` absorbs data, `digest` reads the hash off.
  datatype Hasher<!S> = Hasher(init: S, update: (S, Bytes) -> S, digest: S -> Bytes)

  ghost predicate Absorbs<S>(h: Hasher<S>, s: S, a: Bytes, b: Bytes) {
    h.update(h.update(s, a), b) == h.update(s, a + b)
  }

  // Absorbing in pieces is absorbing at once.
  ghost predicate Streaming<S(!new)>(h: Hasher<S>) {
    && (forall s, a: Bytes, b: Bytes :: Absorbs(h, s, a, b))
    && h.update(h.init, []) == h.init
  }

  function Hash<S>(h: Hasher<S>, data: Bytes): Bytes {
    h.digest(h.update(h.init, data))
  }

  function KeyOf<S>(h: Hasher<S>, data: Bytes): string {
    Encode(Hash(h, data))
  }

  datatype Object = Object(content: Bytes, contentType: string)

  datatype Status = Stored | AlreadyExists | BadHeader | HashMismatch | BadSize | HeadFailed | UploadFailed

  const VERSION_TAG: Bytes := [0, 2]
  const TAIL_SIZE := 128
  const CHUNK_SIZE := 8192

  function Flatten(chunks: seq<Bytes>): Bytes {
    if chunks == [] then [] else Flatten(chunks[..|chunks| - 1]) + chunks[|chunks| - 1]
  }

  // Reading a file yields no empty chunks.
  predicate NoneEmpty(chunks: seq<Bytes>) {
    forall c | c in chunks :: c != []
  }

  // The checks between looking the key up and uploading; `None` if all pass.
  function Reject<S>(h: Hasher<S>, key: string, chunks: seq<Bytes>): Option<Status> {
    var data := Flatten(chunks);
    if chunks != [] && !(VERSION_TAG <= chunks[0]) then Some(BadHeader)
    else if key != KeyOf(h, data) then Some(HashMismatch)
    else if (|data| - 2) % TAIL_SIZE != 0 then Some(BadSize)
    else None
  }

  function Verdict<S>(h: Hasher<S>, objects: map<string, Object>, key: string, chunks: seq<Bytes>,
                      headFails: bool, uploadFails: bool): Status {
    if headFails then HeadFailed
    else if key in objects then AlreadyExists
    else match Reject(h, key, chunks)
      case Some(status) => status
      case None => if uploadFails then UploadFailed else Stored
  }

  // What a tails file looks like.
  predicate WellFormed(data: Bytes) {
    VERSION_TAG <= data && |data| % TAIL_SIZE == 2
  }

  // What the store keeps about every object.
  predicate Addressed<S>(h: Hasher<S>, key: string, data: Bytes) {
    key == KeyOf(h, data) && WellFormed(data)
  }

  lemma FlattenNext(chunks: seq<Bytes>, i: nat)
    requires i < |chunks|
    ensures Flatten(chunks[..i + 1]) == Flatten(chunks[..i]) + chunks[i]
  {
    assert chunks[..i + 1][..i] == chunks[..i];
  }

  lemma Absorb<S(!new)>(h: Hasher<S>, s: S, file: Bytes, chunk: Bytes)
    requires Streaming(h) && s == h.update(h.init, file)
    ensures h.update(s, chunk) == h.update(h.init, file + chunk)
  {
    assert Absorbs(h, h.init, file, chunk);
  }

  lemma {:induction false} FlattenHead(chunks: seq<Bytes>)
    requires chunks != []
    ensures chunks[0] <= Flatten(chunks)
  {
    if |chunks| > 1 {
      FlattenHead(chunks[..|chunks| - 1]);
    } else {
      assert Flatten(chunks[..0]) == [];
    }
  }

  lemma SizeRemainder(n: nat)
    ensures (n - 2) % TAIL_SIZE == 0 <==> n % TAIL_SIZE == 2
  {
  }

  lemma TagInHead(head: Bytes, data: Bytes)
    requires head <= data
    ensures VERSION_TAG <= head <==> VERSION_TAG <= data && |head| >= 2
  {
    assert |head| >= 2 ==> head[0] == data[0] && head[1] == data[1];
  }

  // An upload passes the checks exactly if it is a tails file addressed by its hash and its first chunk
  // holds the version tag whole.
  lemma AcceptedExactly<S(!new)>(h: Hasher<S>, key: string, chunks: seq<Bytes>)
    requires NoneEmpty(chunks)
    ensures Reject(h, key, chunks).None? <==>
            Addressed(h, key, Flatten(chunks)) && chunks != [] && |chunks[0]| >= 2
  {
    SizeRemainder(|Flatten(chunks)|);
    if chunks != [] {
      FlattenHead(chunks);
      TagInHead(chunks[0], Flatten(chunks));
    }
  }

  // Every file, tails files included, is turned away if its first chunk is a single byte.
  lemma ShortHeadIsRejected<S>(h: Hasher<S>, key: string, chunks: seq<Bytes>)
    requires chunks != [] && |chunks[0]| == 1
    ensures Reject(h, key, chunks) == Some(BadHeader)
  {
  }

  // Uploading stores the file exactly if no call fails, the key is free and the file is addressed by it, for
  // every chunking whose first chunk has two bytes.
  lemma StoredExactly<S(!new)>(h: Hasher<S>, objects: map<string, Object>, key: string, chunks: seq<Bytes>,
                               headFails: bool, uploadFails: bool)
    requires NoneEmpty(chunks)
    requires chunks != [] && |Flatten(chunks)| >= 2 ==> |chunks[0]| >= 2
    ensures Verdict(h, objects, key, chunks, headFails, uploadFails) == Stored <==>
            !headFails && !uploadFails && key !in objects && Addressed(h, key, Flatten(chunks))
  {
    AcceptedExactly(h, key, chunks);
    if chunks != [] {
      FlattenHead(chunks);
    }
  }

  // How an upload is turned away. The checks are made in this order: the key, the header, the hash, the size.
  lemma RefusedExactly<S(!new)>(h: Hasher<S>, objects: map<string, Object>, key: string, chunks: seq<Bytes>,
                                headFails: bool, uploadFails: bool)
    ensures var v, data := Verdict(h, objects, key, chunks, headFails, uploadFails), Flatten(chunks);
            && (headFails ==> v == HeadFailed)
            && (!headFails && key in objects ==> v == AlreadyExists)
            && (!headFails && key !in objects ==>
                  && (v == BadHeader <==> chunks != [] && (|chunks[0]| < 2 || chunks[0][0] != 0 || chunks[0][1] != 2))
                  && (v == HashMismatch ==> key != Encode(Hash(h, data)))
                  && (v != BadHeader && key != Encode(Hash(h, data)) ==> v == HashMismatch)
                  && (v == BadSize ==> |data| % 128 != 2)
                  && (v !in {BadHeader, HashMismatch} && |data| % 128 != 2 ==> v == BadSize)
                  && (v !in {BadHeader, HashMismatch, BadSize} ==> v == if uploadFails then UploadFailed else Stored))
  {
    SizeRemainder(|Flatten(chunks)|);
    if chunks != [] {
      TagBytes(chunks[0]);
    }
  }

  lemma TagBytes(head: Bytes)
    ensures VERSION_TAG <= head <==> |head| >= 2 && head[0] == 0 && head[1] == 2
  {
  }

  class TailsServer {
    var objects: map<string, Object>

    constructor ()
      ensures objects == map[]
    {
      objects := map[];
    }

    // The loop over the upload: check the first chunk, feed the hash, keep the bytes.
    static method ReadUpload<S(!new)>(h: Hasher<S>, chunks: seq<Bytes>) returns (headerOk: bool, hash: S, file: Bytes)
      requires Streaming(h)
      ensures headerOk <==> chunks == [] || VERSION_TAG <= chunks[0]
      ensures headerOk ==> file == Flatten(chunks) && hash == h.update(h.init, Flatten(chunks))
    {
      headerOk, hash, file := true, h.init, [];
      var firstChunk, i := true, 0;
      while i < |chunks|
        invariant 0 <= i <= |chunks|
        invariant firstChunk <==> i == 0
        invariant headerOk && (i > 0 ==> VERSION_TAG <= chunks[0])
        invariant file == Flatten(chunks[..i])
        invariant hash == h.update(h.init, file)
      {
        var chunk := chunks[i];
        if firstChunk {
          if !(VERSION_TAG <= chunk) {
            headerOk := false;
            return;
          }
          firstChunk := false;
        }
        FlattenNext(chunks, i);
        Absorb(h, hash, file, chunk);
        hash := h.update(hash, chunk);
        file := file + chunk;
        i := i + 1;
      }
      assert chunks[..i] == chunks;
    }

    method PutFileByHash<S(!new)>(h: Hasher<S>, key: string, chunks: seq<Bytes>, contentType: string,
                                  headFails: bool, uploadFails: bool) returns (status: Status)
      requires Streaming(h)
      modifies this
      ensures status == Verdict(h, old(objects), key, chunks, headFails, uploadFails)
      ensures objects == if status.Stored? then old(objects)[key := Object(Flatten(chunks), contentType)]
                         else old(objects)
    {
      if headFails {
        return HeadFailed;
      }
      if key in objects {
        return AlreadyExists;
      }
      var headerOk, hash, file := ReadUpload(h, chunks);
      if !headerOk {
        return BadHeader;
      }
      var digest := Encode(h.digest(hash));
      if key != digest {
        return HashMismatch;
      }
      if (|file| - 2) % TAIL_SIZE != 0 {
        return BadSize;
      }
      if uploadFails {
        return UploadFailed;
      }
      objects := objects[key := Object(file, contentType)];
      return Stored;
    }

    // The chunks streamed back are the stored bytes, in pieces of at most the chunk size.
    method GetFileByHash(key: string) returns (chunks: Option<seq<Bytes>>)
      ensures chunks.Some? <==> key in objects
      ensures chunks.Some? ==>
                && Flatten(chunks.value) == objects[key].content
                && forall i | 0 <= i < |chunks.value| ::
                     0 < |chunks.value[i]| <= 8192 && (i + 1 < |chunks.value| ==> |chunks.value[i]| == 8192)
    {
      if key !in objects {
        return None;
      }
      var body := objects[key].content;
      var position, sent: seq<Bytes> := 0, [];
      while position < |body|
        invariant 0 <= position <= |body|
        invariant Flatten(sent) == body[..position]
        invariant position < |body| ==> forall i | 0 <= i < |sent| :: |sent[i]| == CHUNK_SIZE
        invariant forall i | 0 <= i < |sent| ::
                    0 < |sent[i]| <= CHUNK_SIZE && (i + 1 < |sent| ==> |sent[i]| == CHUNK_SIZE)
      {
        var end := if position + CHUNK_SIZE <= |body| then position + CHUNK_SIZE else |body|;
        var chunk: Bytes := body[position..end];
        assert (sent + [chunk])[..|sent|] == sent;
        sent := sent + [chunk];
        position := end;
      }
      assert body[..position] == body;
      chunks := Some(sent);
    }
  }

  // ---- Racing uploads ----

  datatype PutPc = Checking | Sending | Ended(status: Status)

  datatype Put = Put(key: string, chunks: seq<Bytes>, contentType: string, pc: PutPc)

  datatype State = State(objects: map<string, Object>, puts: seq<Put>)

  // A put arrives, its key is looked up, or its upload reaches the bucket.
  datatype Action =
    | Arrives(key: string, chunks: seq<Bytes>, contentType: string)
    | Looks(i: nat, fails: bool)
    | Uploads(i: nat, fails: bool)

  function At(s: State, i: nat, pc: PutPc): State
    requires i < |s.puts|
  {
    s.(puts := s.puts[i := s.puts[i].(pc := pc)])
  }

  function Do<S>(h: Hasher<S>, s: State, a: Action): State {
    match a
    case Arrives(key, chunks, contentType) =>
      s.(puts := s.puts + [Put(key, chunks, contentType, Checking)])
    case Looks(i, fails) =>
      if i >= |s.puts| || !s.puts[i].pc.Checking? then s
      else
        var p := s.puts[i];
        At(s, i, if fails then Ended(HeadFailed)
                 else if p.key in s.objects then Ended(AlreadyExists)
                 else match Reject(h, p.key, p.chunks) case Some(status) => Ended(status) case None => Sending)
    case Uploads(i, fails) =>
      if i >= |s.puts| || !s.puts[i].pc.Sending? then s
      else if fails then At(s, i, Ended(UploadFailed))
      else
        var p := s.puts[i];
        At(s.(objects := s.objects[p.key := Object(Flatten(p.chunks), p.contentType)]), i, Ended(Stored))
  }

  function Run<S>(h: Hasher<S>, actions: seq<Action>): State {
    if actions == [] then State(map[], [])
    else Do(h, Run(h, actions[..|actions| - 1]), actions[|actions| - 1])
  }

  // A put on its own, from its arrival to its upload, ends with the verdict on the upload and stores the
  // object exactly if that is `Stored`.
  lemma PutAlone<S(!new)>(h: Hasher<S>, s: State, key: string, chunks: seq<Bytes>, contentType: string,
                          headFails: bool, uploadFails: bool)
    ensures var i, verdict := |s.puts|, Verdict(h, s.objects, key, chunks, headFails, uploadFails);
            var t := Do(h, Do(h, Do(h, s, Arrives(key, chunks, contentType)), Looks(i, headFails)), Uploads(i, uploadFails));
            && t.puts == s.puts + [Put(key, chunks, contentType, Ended(verdict))]
            && t.objects == if verdict == Stored then s.objects[key := Object(Flatten(chunks), contentType)] else s.objects
  {
    var i := |s.puts|;
    var arrived := Do(h, s, Arrives(key, chunks, contentType));
    var looked := Do(h, arrived, Looks(i, headFails));
    assert looked.puts == s.puts + [looked.puts[i]];
    var t := Do(h, looked, Uploads(i, uploadFails));
    assert t.puts == s.puts + [t.puts[i]];
  }

  ghost predicate Inv<S>(h: Hasher<S>, s: State) {
    && (forall key | key in s.objects :: Addressed(h, key, s.objects[key].content))
    && (forall i | 0 <= i < |s.puts| && s.puts[i].pc.Sending? ::
          Addressed(h, s.puts[i].key, Flatten(s.puts[i].chunks)))
  }

  lemma DoKeeps<S(!new)>(h: Hasher<S>, s: State, a: Action)
    requires Inv(h, s)
    requires a.Arrives? ==> NoneEmpty(a.chunks)
    requires forall i | 0 <= i < |s.puts| :: NoneEmpty(s.puts[i].chunks)
    ensures Inv(h, Do(h, s, a))
  {
    if a.Looks? && a.i < |s.puts| {
      AcceptedExactly(h, s.puts[a.i].key, s.puts[a.i].chunks);
    }
  }

  predicate Readable(actions: seq<Action>) {
    forall a | a in actions && a.Arrives? :: NoneEmpty(a.chunks)
  }

  lemma {:induction false} RunKeeps<S(!new)>(h: Hasher<S>, actions: seq<Action>)
    requires Readable(actions)
    ensures var s := Run(h, actions);
            Inv(h, s) && forall i | 0 <= i < |s.puts| :: NoneEmpty(s.puts[i].chunks)
  {
    if actions != [] {
      var before, a := actions[..|actions| - 1], actions[|actions| - 1];
      assert a in actions;
      RunKeeps(h, before);
      DoKeeps(h, Run(h, before), a);
    }
  }

  // However puts race, every stored object is a tails file under the base58 form of its own hash.
  lemma StoreIsAddressed<S(!new)>(h: Hasher<S>, actions: seq<Action>, key: string)
    requires Readable(actions) && key in Run(h, actions).objects
    ensures Addressed(h, key, Run(h, actions).objects[key].content)
  {
    RunKeeps(h, actions);
  }

  lemma SameKeySameHash<S(!new)>(h: Hasher<S>, a: Bytes, b: Bytes)
    requires KeyOf(h, a) == KeyOf(h, b)
    ensures Hash(h, a) == Hash(h, b)
  {
    DecodeEncode(Hash(h, a));
    DecodeEncode(Hash(h, b));
  }

  lemma {:induction false} ObjectsStay<S>(h: Hasher<S>, actions: seq<Action>, k: nat, key: string)
    requires k <= |actions| && key in Run(h, actions[..k]).objects
    ensures key in Run(h, actions).objects
  {
    if k == |actions| {
      assert actions[..k] == actions;
    } else {
      var before := actions[..|actions| - 1];
      assert before[..k] == actions[..k];
      ObjectsStay(h, before, k, key);
    }
  }

  // Once a key is stored it stays, and its bytes change only if two different files with the same hash
  // have been uploaded: the old and the new bytes are then a collision.
  lemma BytesChangeOnlyByCollision<S(!new)>(h: Hasher<S>, actions: seq<Action>, k: nat, key: string)
    requires Readable(actions) && k <= |actions| && key in Run(h, actions[..k]).objects
    ensures key in Run(h, actions).objects
    ensures var old', new' := Run(h, actions[..k]).objects[key].content, Run(h, actions).objects[key].content;
            Hash(h, old') == Hash(h, new')
  {
    assert forall a | a in actions[..k] :: a in actions;
    RunKeeps(h, actions[..k]);
    RunKeeps(h, actions);
    ObjectsStay(h, actions, k, key);
    SameKeySameHash(h, Run(h, actions[..k]).objects[key].content, Run(h, actions).objects[key].content);
  }
}

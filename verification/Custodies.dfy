/** The transfer of an evictable surface to the mirror and the heal of one
    uploaded under an old name (pkg/collect/sync.go): the proven bytes are always
    somewhere. */
module Custodies {
  import opened Records

  type Content = seq<nat>

  /** A mirrored object and the digests recorded with it, if any.  Digests are
      taken to be collision free, so a digest stands for its content. */
  datatype Object = Object(body: Content, sha: Option<Content>, md5: Option<Content>)

  predicate Truthful(o: Object) {
    && (o.sha.Some? ==> o.sha.value == o.body)
    && (o.md5.Some? ==> o.md5.value == o.body)
  }

  predicate Digested(o: Object) {
    o.sha.Some? || o.md5.Some?
  }

  /** The trace an evicted tarball leaves. */
  datatype Stub = Stub(size: nat, digest: Content)

  datatype Surface = Bundle | Tarball | Neither

  datatype Signature = Signature(size: nat, hash: Option<Content>)

  /** What proves a surface's bytes: a bundle's sidecar, if it lists members, or
      the ledger's done entry for a tarball. */
  datatype Proof = Unproven | Sealed(members: Content -> bool) | Settled(signature: Option<Signature>, durable: bool)

  predicate Proves(surface: Surface, proof: Proof, c: Content) {
    match surface
    case Bundle => proof.Sealed? && proof.members(c)
    case Tarball =>
      && proof.Settled? && proof.signature.Some? && proof.durable
      && (proof.signature.value.hash.None? || proof.signature.value.hash == Some(c))
    case Neither => false
  }

  /** The bytes are the recorded ones: a bundle's match the members its sidecar
      lists; a tarball's entry is done, signed and durable, and its hash, if it
      recorded one, is theirs. */
  predicate Recorded(surface: Surface, proof: Proof, c: Content) {
    || (surface == Bundle && proof.Sealed? && proof.members(c))
    || (surface == Tarball && proof.Settled? && proof.durable && proof.signature.Some?
        && proof.signature.value.hash in {None, Some(c)})
  }

  /** The remote object carries the expected content, as far as sizes and the
      digests both sides carry can tell. */
  predicate Confirms(o: Object, size: nat, sha: Option<Content>, md5: Option<Content>) {
    && |o.body| == size
    && (o.sha.Some? && sha.Some? ==> o.sha == sha)
    && (o.md5.Some? && md5.Some? ==> o.md5 == md5)
  }

  /** A digest match is content equality; a bare size match is not. */
  lemma ConfirmsMeans(o: Object, c: Content)
    requires Truthful(o) && Digested(o)
    ensures Confirms(o, |c|, Some(c), Some(c)) <==> o.body == c
  {
  }

  /** Without recorded digests any content of the right size passes, and no other;
      and no digest makes up for a size that differs. */
  lemma SizeAloneConfirms(c: Content, d: Content)
    ensures Confirms(Object(d, None, None), |c|, Some(c), Some(c)) <==> |d| == |c|
    ensures forall o: Object, sha, md5 | Confirms(o, |c|, sha, md5) :: |o.body| == |c|
  {
  }

  /** Local files, eviction stubs, and the mirror, keyed by archive path. */
  datatype World = World(local: map<Path, Content>, stubs: map<Path, Stub>, store: map<Path, Object>)

  ghost predicate Honest(w: World) {
    forall k | k in w.store :: Truthful(w.store[k])
  }

  /** How the write of an object ends; a store may drop either digest. */
  datatype Upload = Uploaded(sha: bool, md5: bool, reported: bool) | NotUploaded

  datatype Write = Written | Unwritten | WrittenThenStopped

  /** Where an attempt is stopped, by a fault or by a crash. */
  datatype Luck = Luck(stat: bool, hash: bool, head: bool, upload: Upload, rehead: bool, readBack: bool, stub: Write, remove: bool)

  predicate Lucky(l: Luck) {
    l.stat && l.hash && l.head && l.upload.Uploaded? && l.upload.reported && l.rehead && l.readBack && l.stub.Written?
    && l.remove
  }

  /** What one attempt to offload `p` may have done, wherever it stopped. */
  ghost predicate Attempted(surface: Surface, proof: Proof, w: World, p: Path, w': World) {
    && Honest(w')
    && (w'.local == w.local || (p in w.local && w'.local == w.local - {p}))
    && (w'.stubs == w.stubs || (p in w.local && surface.Tarball? && w'.stubs == w.stubs[p := Stub(|w.local[p]|, w.local[p])]))
    && (w'.store == w.store
        || (p !in w.store && p in w.local && Recorded(surface, proof, w.local[p]) && p in w'.store
            && w'.store[p].body == w.local[p] && w'.store == w.store[p := w'.store[p]]))
    && (p in w.local && p !in w'.local ==>
          && Recorded(surface, proof, w.local[p]) && p in w'.store && w'.store[p].body == w.local[p]
          && (surface.Tarball? ==> p in w'.stubs && w'.stubs[p] == Stub(|w.local[p]|, w.local[p])))
  }

  class Mirror {
    const surface: Path -> Surface
    const proof: Path -> Proof
    var local: map<Path, Content>
    var stubs: map<Path, Stub>
    var store: map<Path, Object>

    constructor (surface: Path -> Surface, proof: Path -> Proof, w: World)
      ensures W() == w && this.surface == surface && this.proof == proof
    {
      this.surface, this.proof := surface, proof;
      local, stubs, store := w.local, w.stubs, w.store;
    }

    function W(): World
      reads this
    {
      World(local, stubs, store)
    }

    /** Proves, uploads if the mirror lacks the key, confirms, leaves the trace,
        and only then removes the local file. */
    method OffloadFile(p: Path, l: Luck) returns (done: bool)
      requires Honest(W())
      modifies this
      ensures Attempted(surface(p), proof(p), old(W()), p, W())
      ensures done ==> p in old(local) && p !in local
      ensures p in old(store) ==> store == old(store)
      ensures !(p in old(local) && Recorded(surface(p), proof(p), old(local)[p])) ==> !done && W() == old(W())
      ensures forall q | q != p :: (q in local <==> q in old(local)) && (q in stubs <==> q in old(stubs)) && (q in store <==> q in old(store))
      ensures Lucky(l) && p in old(local) && Recorded(surface(p), proof(p), old(local)[p]) ==>
                (done <==> p in old(store) ==> old(store)[p].body == old(local)[p])
    {
      done := false;
      if p !in local || !l.stat || !l.hash {
        return;
      }
      var c := local[p];
      if !Proves(surface(p), proof(p), c) || !l.head {
        return;
      }
      if p !in store {
        if l.upload.NotUploaded? {
          return;
        }
        store := store[p := Object(c, if l.upload.sha then Some(c) else None, if l.upload.md5 then Some(c) else None)];
        if !l.upload.reported || !l.rehead {
          return;
        }
      }
      var info := store[p];
      if !Confirms(info, |c|, Some(c), Some(c)) {
        return;
      }
      if !Digested(info) && (!l.readBack || info.body != c) {
        return;
      }
      if surface(p).Tarball? {
        if l.stub.Unwritten? {
          return;
        }
        stubs := stubs[p := Stub(|c|, c)];
        if l.stub.WrittenThenStopped? {
          return;
        }
      }
      if !l.remove {
        return;
      }
      local := local - {p};
      done := true;
    }

    /** Copies the only copy from the key it was uploaded under to its current
        one, confirms the fresh copy, and only then releases the old one.
        `want` is the digest the ledger recorded, and `copied` what the store's
        copy lands, if it lands. */
    method Heal(hist: Path, p: Path, want: Option<Content>, copied: Option<Object>, head: bool, rehead: bool,
                readBack: bool, discard: bool, release: bool)
      requires Honest(W()) && hist != p && (copied.Some? ==> Truthful(copied.value))
      modifies this`store
      ensures Honest(W()) && Aside(old(store), store, {p, hist})
      ensures hist in store ==> hist in old(store) && store[hist] == old(store)[hist]
      ensures hist in old(store) && hist !in store ==>
                p in store && |store[p].body| == |old(store)[hist].body|
                && (store[p].body == old(store)[hist].body || want == Some(store[p].body))
      ensures p in old(store) && p !in store ==> hist in store
      ensures !head || hist !in old(store) || copied.None? || (want.None? && old(store)[hist].sha.None? && old(store)[hist].md5.None?) ==>
                store == old(store)
      ensures p in store && discard ==>
                || (p in old(store) && store[p] == old(store)[p])
                || (hist in old(store) && store[p].body == old(store)[hist].body)
                || want == Some(store[p].body)
      ensures head && rehead && readBack && release && hist in old(store) && copied.Some?
              && copied.value.body == old(store)[hist].body && (want.Some? ==> copied.value.body == want.value)
              && (want.Some? || (old(store)[hist].sha.Some? && copied.value.sha.Some?)
                             || (old(store)[hist].md5.Some? && copied.value.md5.Some?)) ==>
                hist !in store && p in store && store[p] == copied.value
    {
      if !head || hist !in store {
        return;
      }
      var src := store[hist];
      if (want.None? && !Digested(src)) || copied.None? {
        return;
      }
      store := store[p := copied.value];
      var confirmed := rehead && ConfirmsHealed(store[p], src, want, readBack);
      if !confirmed {
        if discard { store := store - {p}; }
        return;
      }
      if release { store := store - {hist}; }
    }
  }

  /** The mirror changed at some keys only. */
  ghost predicate Aside(before: map<Path, Object>, after: map<Path, Object>, keys: set<Path>) {
    forall k | k !in keys :: At(after, k) == At(before, k)
  }

  /** The ladder a healed copy climbs: sizes, then a digest both objects carry,
      then a full read against the recorded signature. */
  predicate ConfirmsHealed(head: Object, src: Object, want: Option<Content>, readBack: bool) {
    && |head.body| == |src.body|
    && (if (src.sha.Some? && head.sha.Some?) || (src.md5.Some? && head.md5.Some?)
        then Confirms(head, |src.body|, src.sha, src.md5)
        else want.Some? && readBack && head.body == want.value)
  }

  // --------------------------------------------------------------- many attempts

  /** Every local file of `first` is still local, or proven and mirrored with
      its trace left behind. */
  ghost predicate InCustody(surface: Path -> Surface, proof: Path -> Proof, first: World, w: World) {
    forall p | p in first.local ::
      || (p in w.local && w.local[p] == first.local[p])
      || (p !in w.local && Recorded(surface(p), proof(p), first.local[p])
          && p in w.store && w.store[p].body == first.local[p]
          && (surface(p).Tarball? ==> p in w.stubs && w.stubs[p] == Stub(|first.local[p]|, first.local[p])))
  }

  lemma AttemptKeeps(surface: Path -> Surface, proof: Path -> Proof, first: World, w: World, p: Path, w': World)
    requires InCustody(surface, proof, first, w) && Attempted(surface(p), proof(p), w, p, w')
    requires w.local.Keys <= first.local.Keys
    ensures InCustody(surface, proof, first, w') && w'.local.Keys <= first.local.Keys
  {
  }

  /** Offload custody: after any number of attempts, each stopped at any step,
      every surface's proven bytes are local or mirrored, and a file is gone
      only behind its proof, its copy and, for a tarball, its stub. */
  lemma {:induction false} CustodyHolds(surface: Path -> Surface, proof: Path -> Proof, worlds: seq<World>, paths: seq<Path>)
    requires |worlds| == |paths| + 1 && Honest(worlds[0])
    requires forall i | 0 <= i < |paths| :: Attempted(surface(paths[i]), proof(paths[i]), worlds[i], paths[i], worlds[i + 1])
    ensures InCustody(surface, proof, worlds[0], worlds[|paths|]) && Honest(worlds[|paths|])
    ensures worlds[|paths|].local.Keys <= worlds[0].local.Keys
    ensures forall k | k in worlds[0].store :: k in worlds[|paths|].store && worlds[|paths|].store[k] == worlds[0].store[k]
    decreases |paths|
  {
    if paths != [] {
      var n := |paths| - 1;
      CustodyHolds(surface, proof, worlds[..n + 1], paths[..n]);
      AttemptKeeps(surface, proof, worlds[0], worlds[n], paths[n], worlds[n + 1]);
    }
  }
}

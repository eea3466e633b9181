/** Signing a manifest record, and the loader's verification of the manifest it is served. */
module ManifestSigning {
  import opened Common
  import opened ManifestStore
  import FiniteSets

  datatype Entry = Entry(name: string, sha256: string)
  datatype Response = Response(loaderName: string, entries: seq<Entry>, signatures: seq<string>)

  /** JSON, the gzipped tar archive behind a record's content, and OpenPGP.  check is against the loader's
      keyring and gives the fingerprint of the signing key, or nothing where pgp.Verify panics. */
  datatype Libraries = Libraries(
    marshal: Response -> string,
    unpack: string -> Option<seq<Entry>>,
    sign: (string, int) -> string,
    check: (string, string) -> Option<string>)

  /** ManifestRecord.ManifestResponse: no loader name yet. */
  function ToResponse(lib: Libraries, content: string, signatures: seq<string>): Option<Response> {
    if content == "" then None
    else match lib.unpack(content)
      case None => None
      case Some(entries) => Some(Response("", entries, signatures))
  }

  /** A record can be served, or signed, exactly if it has content that unpacks; what is served are its entries. */
  lemma ServedIff(lib: Libraries, content: string, signatures: seq<string>)
    ensures ToResponse(lib, content, signatures).Some? <==> content != "" && lib.unpack(content).Some?
    ensures ToResponse(lib, content, signatures).Some? ==>
      ToResponse(lib, content, signatures).value.entries == lib.unpack(content).value
  {
  }

  /** ManifestRecord.Sign */
  function Signature(lib: Libraries, content: string, signatures: seq<string>, key: int): Option<string> {
    match ToResponse(lib, content, signatures)
    case None => None
    case Some(me) => Some(lib.sign(lib.marshal(me.(signatures := [])), key))
  }

  ghost predicate AllSigned(lib: Libraries, document: string, signatures: seq<string>) {
    forall i | 0 <= i < |signatures| :: lib.check(document, signatures[i]).Some?
  }

  ghost predicate ByDistinctKeys(lib: Libraries, document: string, signatures: seq<string>) {
    forall i, j | 0 <= i < j < |signatures| :: lib.check(document, signatures[i]) != lib.check(document, signatures[j])
  }

  class ManifestResponse {
    var loaderName: string
    var entries: seq<Entry>
    var signatures: seq<string>

    constructor (r: Response)
      ensures loaderName == r.loaderName && entries == r.entries && signatures == r.signatures
    {
      loaderName, entries, signatures := r.loaderName, r.entries, r.signatures;
    }

    /** Counts the signatures, all of which must be good and by different keys; the response loses them. */
    method VerifySignatures(lib: Libraries) returns (validcnt: Result<nat>)
      modifies this`signatures
      ensures signatures == []
      ensures var document := lib.marshal(Response("", entries, []));
        validcnt.Ok? <==> AllSigned(lib, document, old(signatures)) && ByDistinctKeys(lib, document, old(signatures))
      ensures validcnt.Ok? ==> validcnt.value == |old(signatures)|
    {
      var sigs := signatures;
      signatures := [];
      var mcopy := Response("", entries, signatures);
      var buf := lib.marshal(mcopy);
      var count := 0;
      var fpcache: seq<string> := [];
      for i := 0 to |sigs|
        invariant count == |fpcache| == i
        invariant forall k | 0 <= k < i :: lib.check(buf, sigs[k]) == Some(fpcache[k])
        invariant forall k, l | 0 <= k < l < i :: fpcache[k] != fpcache[l]
      {
        var valid := lib.check(buf, sigs[i]);
        if valid.None? {
          return Err("signature does not verify");
        }
        count := count + 1;
        var fp := valid.value;
        for k := 0 to |fpcache|
          invariant forall l | 0 <= l < k :: fpcache[l] != fp
        {
          if fpcache[k] == fp {
            assert lib.check(buf, sigs[k]) == lib.check(buf, sigs[i]);
            return Err("duplicate signature for fingerprint " + fp);
          }
        }
        fpcache := fpcache + [fp];
      }
      validcnt := Ok(count);
    }
  }

  /** What the loader accepts: enough signatures, all good, all by different keys, over the same document. */
  ghost predicate Accepted(lib: Libraries, served: Response, required: int) {
    var document := lib.marshal(Response("", served.entries, []));
    AllSigned(lib, document, served.signatures) && ByDistinctKeys(lib, document, served.signatures)
    && |served.signatures| >= required
  }

  method CheckManifestSignature(lib: Libraries, mr: ManifestResponse, required: int) returns (err: Option<string>)
    modifies mr`signatures
    ensures err.None? <==> Accepted(lib, old(Response(mr.loaderName, mr.entries, mr.signatures)), required)
  {
    var cnt := mr.VerifySignatures(lib);
    match cnt {
      case Err(message) => return Some(message);
      case Ok(n) =>
        if n < required {
          return Some("Not enough valid signatures");
        }
        return None;
    }
  }

  ghost function Keys(lib: Libraries, document: string, signatures: seq<string>): set<string> {
    set i | 0 <= i < |signatures| && lib.check(document, signatures[i]).Some? ::
      lib.check(document, signatures[i]).value
  }

  /** Acceptance means that at least the required number of different keys signed what Sign signs. */
  lemma AcceptedMeansQuorum(lib: Libraries, served: Response, required: int)
    requires Accepted(lib, served, required)
    ensures |Keys(lib, lib.marshal(Response("", served.entries, [])), served.signatures)| >= required
  {
    var document := lib.marshal(Response("", served.entries, []));
    var signatures := served.signatures;
    var fps := seq(|signatures|, i requires 0 <= i < |signatures| => lib.check(document, signatures[i]).value);
    FiniteSets.DistinctSize(fps);
    assert FiniteSets.Elements(fps) <= Keys(lib, document, served.signatures) by {
      forall fp | fp in fps ensures fp in Keys(lib, document, served.signatures) {
        var i :| 0 <= i < |fps| && fps[i] == fp;
        assert lib.check(document, served.signatures[i]).Some?;
      }
    }
    FiniteSets.SubsetIsNoLarger(FiniteSets.Elements(fps), Keys(lib, document, served.signatures));
  }

  /** OpenPGP, for the keys in the loader's keyring: each key's signatures verify, as that key's. */
  ghost predicate Honest(lib: Libraries, fingerprint: int -> string, keys: set<int>) {
    && (forall document, key | key in keys :: lib.check(document, lib.sign(document, key)) == Some(fingerprint(key)))
    && (forall k1, k2 | k1 in keys && k2 in keys && fingerprint(k1) == fingerprint(k2) :: k1 == k2)
  }

  /** signatures were made by signers, in that order, each at a moment when the record carried others. */
  ghost predicate MadeBy(lib: Libraries, content: string, signatures: seq<string>, signers: seq<int>) {
    && |signatures| == |signers|
    && forall i | 0 <= i < |signers| ::
      exists others :: Signature(lib, content, others, signers[i]) == Some(signatures[i])
  }

  /** What was signed is what is verified, whatever loader name is put in and whatever signatures were there:
      a served record is accepted exactly when enough different keys signed it. */
  lemma SignThenVerify(lib: Libraries, fingerprint: int -> string, content: string, signatures: seq<string>,
                       signers: seq<int>, loaderName: string, required: int)
    requires Honest(lib, fingerprint, FiniteSets.Elements(signers)) && MadeBy(lib, content, signatures, signers)
    requires ToResponse(lib, content, signatures).Some?
    ensures Accepted(lib, ToResponse(lib, content, signatures).value.(loaderName := loaderName), required)
       <==> |signers| >= required && forall i, j | 0 <= i < j < |signers| :: signers[i] != signers[j]
  {
    var served := ToResponse(lib, content, signatures).value.(loaderName := loaderName);
    var document := lib.marshal(Response("", served.entries, []));
    forall i | 0 <= i < |signers| ensures lib.check(document, signatures[i]) == Some(fingerprint(signers[i])) {
      var others :| Signature(lib, content, others, signers[i]) == Some(signatures[i]);
      assert signers[i] in FiniteSets.Elements(signers);
      assert lib.check(document, lib.sign(document, signers[i])) == Some(fingerprint(signers[i]));
    }
    forall i, j | 0 <= i < j < |signers|
      ensures lib.check(document, signatures[i]) != lib.check(document, signatures[j]) <==> signers[i] != signers[j]
    {
      assert signers[i] in FiniteSets.Elements(signers) && signers[j] in FiniteSets.Elements(signers);
    }
  }

  /** From the database to the loader: an active manifest, served with its stored signatures in any order,
      is accepted by every loader that requires no more signatures than the API does. */
  lemma ActiveManifestIsAccepted(lib: Libraries, fingerprint: int -> string, st: Store, id: int, order: seq<int>,
                                 loaderName: string, required: int, loaderRequires: int)
    requires Quorum(st, required) && loaderRequires <= required
    requires id in st.manifests && st.manifests[id].status.Active?
    requires FiniteSets.Elements(order) == Signers(st, id) && forall i, j | 0 <= i < j < |order| :: order[i] != order[j]
    requires Honest(lib, fingerprint, Signers(st, id))
    requires forall i | 0 <= i < |order| :: (id, order[i]) in st.signatures
    requires MadeBy(lib, st.manifests[id].content, Stored(st, id, order), order)
    requires ToResponse(lib, st.manifests[id].content, Stored(st, id, order)).Some?
    ensures var served := ToResponse(lib, st.manifests[id].content, Stored(st, id, order)).value;
      Accepted(lib, served.(loaderName := loaderName), loaderRequires)
  {
    FiniteSets.DistinctSize(order);
    assert IsOpen(st, id);
    var signatures := Stored(st, id, order);
    SignThenVerify(lib, fingerprint, st.manifests[id].content, signatures, order, loaderName, loaderRequires);
  }

  /** The signatures of the given investigators, in that order. */
  function Stored(st: Store, id: int, order: seq<int>): seq<string>
    requires forall i | 0 <= i < |order| :: (id, order[i]) in st.signatures
  {
    seq(|order|, i requires 0 <= i < |order| => st.signatures[(id, order[i])])
  }
}

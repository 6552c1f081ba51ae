// The registry of requested library patches (patch.py:9, 25-30, 76-85, 116-138).
module Patches {
  import opened Wrappers

  /** A patch class, by name. */
  type PatchId = string

  const XmlRpcLibPatch: PatchId := "XMLRpcLibPatch"

  /** What `request_patching` is given: one class, or an iterable of classes. */
  datatype Request = Single(patch: PatchId) | Many(patches: seq<PatchId>)

  /** A non-iterable argument is treated as a list holding it. */
  function Items(req: Request): (ps: seq<PatchId>)
    ensures req.Single? ==> ps == [req.patch]
    ensures req.Many? ==> ps == req.patches
  {
    match req
    case Single(p) => [p]
    case Many(ps) => ps
  }

  /**
   * The loop of `request_patching` over `ps`, from the set `reg`: an entry already requested
   * is skipped, one that is not a direct subclass of `Patch` stops the loop with ValueError,
   * any other is added.  Gives the new set and the error, if any.
   */
  function Requested(reg: set<PatchId>, subclasses: set<PatchId>, ps: seq<PatchId>): (set<PatchId>, Option<Error>)
    decreases |ps|
  {
    if |ps| == 0 then (reg, None)
    else if ps[0] in reg then Requested(reg, subclasses, ps[1..])
    else if ps[0] !in subclasses then (reg, Some(ValueError(ps[0] + " is not a valid class")))
    else Requested(reg + {ps[0]}, subclasses, ps[1..])
  }

  /** The set only grows, and grows only by entries of the request. */
  lemma {:induction false} RequestedGrows(reg: set<PatchId>, subclasses: set<PatchId>, ps: seq<PatchId>)
    ensures reg <= Requested(reg, subclasses, ps).0
    ensures forall p :: p in Requested(reg, subclasses, ps).0 ==> p in reg || p in ps
    decreases |ps|
  {
    if |ps| > 0 {
      if ps[0] in reg {
        RequestedGrows(reg, subclasses, ps[1..]);
      } else if ps[0] in subclasses {
        RequestedGrows(reg + {ps[0]}, subclasses, ps[1..]);
      }
    }
  }

  /**
   * The request succeeds exactly when every entry is a subclass or was already requested,
   * and then every entry is requested afterwards.
   */
  lemma {:induction false} RequestedSucceeds(reg: set<PatchId>, subclasses: set<PatchId>, ps: seq<PatchId>)
    ensures Requested(reg, subclasses, ps).1.None? <==> forall i :: 0 <= i < |ps| ==> ps[i] in reg || ps[i] in subclasses
    ensures Requested(reg, subclasses, ps).1.None? ==> forall i :: 0 <= i < |ps| ==> ps[i] in Requested(reg, subclasses, ps).0
    decreases |ps|
  {
    if |ps| > 0 {
      var tail := ps[1..];
      assert forall i :: 1 <= i < |ps| ==> ps[i] == tail[i - 1];
      if ps[0] in reg {
        RequestedSucceeds(reg, subclasses, tail);
        RequestedGrows(reg, subclasses, tail);
      } else if ps[0] in subclasses {
        RequestedSucceeds(reg + {ps[0]}, subclasses, tail);
        RequestedGrows(reg + {ps[0]}, subclasses, tail);
      }
    }
  }

  /**
   * A failing request keeps what the entries before the offending one added: the set is the
   * one the successful prefix gives, and the offending entry is in neither set.
   */
  lemma {:induction false} RequestedFailure(reg: set<PatchId>, subclasses: set<PatchId>, ps: seq<PatchId>)
    requires Requested(reg, subclasses, ps).1.Some?
    ensures exists j :: 0 <= j < |ps| && ps[j] !in subclasses && ps[j] !in Requested(reg, subclasses, ps[..j]).0
              && Requested(reg, subclasses, ps[..j]) == (Requested(reg, subclasses, ps).0, None)
    decreases |ps|
  {
    if ps[0] in reg || ps[0] in subclasses {
      var reg' := if ps[0] in reg then reg else reg + {ps[0]};
      var tail := ps[1..];
      RequestedFailure(reg', subclasses, tail);
      var j :| 0 <= j < |tail| && tail[j] !in subclasses && tail[j] !in Requested(reg', subclasses, tail[..j]).0
               && Requested(reg', subclasses, tail[..j]) == (Requested(reg', subclasses, tail).0, None);
      assert ps[..j + 1][1..] == tail[..j];
      assert ps[j + 1] == tail[j];
    } else {
      assert ps[..0] == [];
    }
  }

  /** Requesting a patch twice in a row registers it as once. */
  lemma RequestedTwice(reg: set<PatchId>, subclasses: set<PatchId>, p: PatchId)
    ensures Requested(reg, subclasses, [p, p]) == Requested(reg, subclasses, [p])
  {
    assert [p, p][1..] == [p];
    assert [p][1..] == [];
    if p !in reg && p in subclasses {
      assert Requested(reg + {p}, subclasses, [p]) == Requested(reg + {p}, subclasses, []);
    }
  }

  /**
   * A single class and a list holding only it make the same request: the class is added when
   * it is a subclass of `Patch` (or already requested), and is refused with ValueError otherwise.
   */
  lemma SingleAsList(reg: set<PatchId>, subclasses: set<PatchId>, p: PatchId)
    ensures Requested(reg, subclasses, Items(Single(p))) == Requested(reg, subclasses, Items(Many([p])))
    ensures Requested(reg, subclasses, Items(Single(p)))
         == if p in reg || p in subclasses then (reg + {p}, None) else (reg, Some(ValueError(p + " is not a valid class")))
  {
    assert [p][1..] == [];
    if p in reg {
      assert reg + {p} == reg;
    }
  }

  /** The module's `requested_patches` set and the `Patch` classes known when a request is made. */
  class PatchRegistry {
    var requested: set<PatchId>
    const subclasses: set<PatchId>

    constructor (subclasses: set<PatchId>)
      ensures this.subclasses == subclasses && requested == {}
    {
      this.subclasses := subclasses;
      requested := {};
    }

    /** `Patch.requested()` of one class. */
    predicate IsRequested(p: PatchId)
      reads this
    {
      p in requested
    }

    /** `request_patching(patches)`. */
    method RequestPatching(req: Request) returns (err: Option<Error>)
      modifies this`requested
      ensures (requested, err) == Requested(old(requested), subclasses, Items(req))
    {
      var ps := Items(req);
      var i := 0;
      while i < |ps|
        invariant 0 <= i <= |ps|
        invariant Requested(old(requested), subclasses, ps) == Requested(requested, subclasses, ps[i..])
      {
        assert ps[i..][1..] == ps[i + 1..];
        var patch := ps[i];
        if patch in requested {
          i := i + 1;
          continue;
        }
        if patch !in subclasses {
          return Some(ValueError(patch + " is not a valid class"));
        }
        requested := requested + {patch};
        i := i + 1;
      }
      return None;
    }

    /**
     * `XMLRpcLibPatch.apply(parser, unmarshaller)`: the pair is patched only when the patch
     * was requested and is warranted.  `warranted` is the outcome of the probe parse, and
     * `patchParser` stands for `patch_parser`.
     */
    function Apply<P>(warranted: bool, pair: P, patchParser: P -> P): (r: P)
      reads this
      ensures !(IsRequested(XmlRpcLibPatch) && warranted) ==> r == pair
      ensures IsRequested(XmlRpcLibPatch) && warranted ==> r == patchParser(pair)
    {
      if XmlRpcLibPatch in requested && warranted then patchParser(pair) else pair
    }
  }

  /** Before any request nothing is requested; after one that names it, the class is requested. */
  method RequestScenario(subclasses: set<PatchId>) returns (before: bool, after: bool)
    requires XmlRpcLibPatch in subclasses
    ensures !before && after
  {
    var reg := new PatchRegistry(subclasses);
    before := reg.IsRequested(XmlRpcLibPatch);
    var err := reg.RequestPatching(Single(XmlRpcLibPatch));
    RequestedSucceeds({}, subclasses, [XmlRpcLibPatch]);
    after := reg.IsRequested(XmlRpcLibPatch);
  }

  /**
   * `apply` follows the registry: before any request the pair is left alone; once the patch
   * is requested it is patched exactly when warranted.
   */
  method ApplyScenario<P>(subclasses: set<PatchId>, warranted: bool, pair: P, patchParser: P -> P)
    returns (before: P, afterWarranted: P, afterUnwarranted: P)
    requires XmlRpcLibPatch in subclasses
    ensures before == pair
    ensures afterWarranted == patchParser(pair) && afterUnwarranted == pair
  {
    var reg := new PatchRegistry(subclasses);
    before := reg.Apply(warranted, pair, patchParser);
    var err := reg.RequestPatching(Single(XmlRpcLibPatch));
    SingleAsList({}, subclasses, XmlRpcLibPatch);
    afterWarranted := reg.Apply(true, pair, patchParser);
    afterUnwarranted := reg.Apply(false, pair, patchParser);
  }

  /**
   * A request that stops at an invalid class before reaching the patch fails with ValueError
   * and leaves the patch unrequested, so even a warranted `apply` keeps the pair.
   */
  method ApplyAfterFailedRequest<P>(subclasses: set<PatchId>, bad: PatchId, pair: P, patchParser: P -> P)
    returns (err: Option<Error>, applied: P)
    requires XmlRpcLibPatch in subclasses && bad !in subclasses
    ensures err == Some(ValueError(bad + " is not a valid class"))
    ensures applied == pair
  {
    var reg := new PatchRegistry(subclasses);
    err := reg.RequestPatching(Many([bad, XmlRpcLibPatch]));
    applied := reg.Apply(true, pair, patchParser);
  }
}

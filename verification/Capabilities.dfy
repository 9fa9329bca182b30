/** What the two capabilities of a request open, and what they do not (Authenticate in internal/store/store.go). */
module Capabilities {
  import opened Prelude
  import opened Text
  import opened Model
  import opened StoreSpec
  import opened StoreInvariant
  import opened StoreRuns
  import opened StoreTheorems

  /** The token is the preimage of the recorded hash of a capability. */
  predicate Opens(p: Primitives, hash: string, token: string) {
    token != "" && HexDecode(hash) == Some(p.sha256(Utf8(token)))
  }

  /** A grant for collecting needs the collect token, one for submitting the submit token. */
  lemma GrantNeedsItsToken(p: Primitives, d: Disk, id: string, token: string)
    ensures var granted := Authenticate(p, d, id, token, Collect);
      granted.Some? ==> Opens(p, granted.value.collectTokenHash, token)
    ensures var granted := Authenticate(p, d, id, token, Submit);
      granted.Some? ==> Opens(p, granted.value.submitTokenHash, token)
  {}

  /** Nobody gets in without a token. */
  lemma EmptyTokenOpensNothing(p: Primitives, d: Disk, id: string, kind: Kind)
    ensures Authenticate(p, d, id, "", kind) == None
  {}

  /** Where the two hashes differ no token does both: senders cannot collect, and recipients' tokens do not submit. */
  lemma CapabilitiesAreSeparate(p: Primitives, d: Disk, id: string, token: string)
    requires forall b :: RequestIncludingClosed(d, id) == Some(b) ==>
      HexDecode(b.submitTokenHash) != HexDecode(b.collectTokenHash)
    ensures Authenticate(p, d, id, token, Submit) == None || Authenticate(p, d, id, token, Collect) == None
  {
    hide HexDecode, Utf8;
  }

  /** In every reachable state and until the closure exactly the two tokens of the bundle first imported open a
      request, each for its own kind. */
  lemma OpenRequestTokens(p: Primitives, w: World, id: string, token: string)
    requires Lawful(p) && Reachable(p, w) && id in w.first && id !in w.disk.markers
    ensures Authenticate(p, w.disk, id, token, Submit)
         == if Opens(p, w.first[id].submitTokenHash, token) then Some(w.first[id]) else None
    ensures Authenticate(p, w.disk, id, token, Collect)
         == if Opens(p, w.first[id].collectTokenHash, token) then Some(w.first[id]) else None
  {
    ReachableInv(p, w);
    assert RequestOk(p, w.disk, w.first, id);
    hide HexDecode, Utf8, Reachable, Inv;
  }

  /** In any state the active bundle's tokens count, and without one those of the closed bundle. */
  lemma TokensExactly(p: Primitives, d: Disk, id: string, token: string)
    requires Lawful(p) && ValidID(id)
    ensures var b := if id in d.active then Some(d.active[id]) else if id in d.closed then Some(d.closed[id]) else None;
      && Authenticate(p, d, id, token, Submit)
           == (if b.Some? && Opens(p, b.value.submitTokenHash, token) then b else None)
      && Authenticate(p, d, id, token, Collect)
           == (if b.Some? && Opens(p, b.value.collectTokenHash, token) then b else None)
  {
    hide HexDecode, Utf8;
  }
}

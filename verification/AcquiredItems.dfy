/** What a committed page leaves of each of its items: the raw row with its rights, the membership, the delivery. */
module AcquiredItems {
  import opened Common
  import opened CollectionState
  import opened CollectionInvariants

  function KeyOf(source: SourceId, item: Item): RawId {
    RawId(source, item.externalId, item.payloadHash)
  }

  /** No item before this one on the page has its key. */
  predicate FirstOfKey(source: SourceId, items: seq<Item>, i: nat)
    requires i < |items|
  {
    forall j :: 0 <= j < i ==> KeyOf(source, items[j]) != KeyOf(source, items[i])
  }

  // ---------- Rights ----------

  /** The item declares a license, and not the policy's. */
  predicate OtherLicense(p: Policy, d: DeclaredRights)
    requires d.Declared?
  {
    d.license.Some? && d.license.value != p.license
  }

  /** Every permission is the policy's unless the item declares it away; another license takes three of them away. */
  predicate Narrowed(rights: Policy, p: Policy, d: DeclaredRights)
    requires d.Declared?
  {
    && (rights.approved <==> p.approved && d.approved != Some(false))
    && (rights.fetch <==> p.fetch && d.fetch != Some(false))
    && (rights.store <==> p.store && d.store != Some(false))
    && (rights.embed <==> p.embed && d.embed != Some(false) && !OtherLicense(p, d))
    && (rights.modelInput <==> p.modelInput && d.modelInput != Some(false) && !OtherLicense(p, d))
    && (rights.displayExcerpt <==> p.displayExcerpt && d.displayExcerpt != Some(false) && !OtherLicense(p, d))
    && (rights.verbatimOnly <==> p.verbatimOnly || d.verbatimOnly)
    && rights.license == if d.license.Some? then d.license.value else p.license
  }

  lemma AcquireItemStores(s: Store, claim: Claim, target: Target, item: Item, now: Instant)
    requires AcquireItem(s, claim, target, item, now).Done?
    ensures var t := AcquireItem(s, claim, target, item, now).store;
            var raw := KeyOf(target.source, item);
            && item.rights.Declared? && raw in t.rawItems
            && t.rawItems.Keys == s.rawItems.Keys + {raw}
            && (raw !in s.rawItems ==>
                  && t.rawItems[raw].run == claim.run && t.rawItems[raw].collectedAt == now
                  && Narrowed(t.rawItems[raw].rights, target.policy, item.rights))
  {}

  /** The page adds a raw row for the first item of a key that has none, under the rights of that item. */
  lemma {:induction false} RowStored(s: Store, claim: Claim, target: Target, items: seq<Item>, now: Instant, i: nat)
    requires AcquireItems(s, claim, target, items, now).Done? && i < |items|
    requires KeyOf(target.source, items[i]) !in s.rawItems && FirstOfKey(target.source, items, i)
    ensures var t := AcquireItems(s, claim, target, items, now).store;
            var raw := KeyOf(target.source, items[i]);
            && items[i].rights.Declared? && raw in t.rawItems
            && t.rawItems[raw].run == claim.run && t.rawItems[raw].collectedAt == now
            && Narrowed(t.rawItems[raw].rights, target.policy, items[i].rights)
    decreases |items|
  {
    var s1 := AcquireItem(s, claim, target, items[0], now).store;
    AcquireItemStores(s, claim, target, items[0], now);
    AcquiredRightsWithinPolicy(s1, claim, target, items[1..], now);
    if i > 0 {
      assert items[1..][i - 1] == items[i];
      forall j | 0 <= j < i - 1 ensures KeyOf(target.source, items[1..][j]) != KeyOf(target.source, items[i]) {
        assert items[1..][j] == items[j + 1];
      }
      RowStored(s1, claim, target, items[1..], now, i - 1);
    }
  }

  // ---------- Memberships and deliveries ----------

  /** The revision that was stored first of all the item's revisions, if it has any. */
  ghost predicate Oldest(revisions: seq<(RawId, RevisionId)>, raw: RawId, r: Option<RevisionId>) {
    match r
    case None => forall i :: 0 <= i < |revisions| ==> revisions[i].0 != raw
    case Some(v) =>
      exists i :: 0 <= i < |revisions| && revisions[i] == (raw, v) && forall j :: 0 <= j < i ==> revisions[j].0 != raw
  }

  lemma {:induction false} FirstIsOldest(revisions: seq<(RawId, RevisionId)>, raw: RawId)
    ensures Oldest(revisions, raw, FirstRevision(revisions, raw))
  {
    if revisions != [] && revisions[0].0 != raw {
      var rest := revisions[1..];
      FirstIsOldest(rest, raw);
      match FirstRevision(rest, raw)
      case None =>
        forall i | 0 <= i < |revisions| ensures revisions[i].0 != raw {
          if i > 0 { assert rest[i - 1] == revisions[i]; }
        }
      case Some(v) =>
        var i :| 0 <= i < |rest| && rest[i] == (raw, v) && forall j :: 0 <= j < i ==> rest[j].0 != raw;
        assert revisions[i + 1] == (raw, v);
        forall j | 0 <= j < i + 1 ensures revisions[j].0 != raw { if j > 0 { assert rest[j - 1] == revisions[j]; } }
    }
  }

  /** The partition's membership of the item, and the delivery that normalizes it, if there were none. */
  ghost predicate JoinedBy(s: Store, t: Store, claim: Claim, raw: RawId, now: Instant) {
    && (claim.id, raw) in t.memberships
    && ((claim.id, raw) !in s.memberships ==>
          var m := t.memberships[(claim.id, raw)];
          m.run == claim.run && m.acquiredAt == now && Oldest(s.revisions, raw, m.revision))
    && var key := Normalization(raw, claim.id.workflowVersion);
    && key in t.outbox
    && (key !in s.outbox ==>
          t.outbox[key] == Delivery(claim.id, claim.row.pageSequence, now, None, None, 0, None))
  }

  /** What was there is as it was. */
  ghost predicate Kept(s: Store, t: Store) {
    && t.revisions == s.revisions
    && (forall m :: m in s.memberships ==> m in t.memberships && t.memberships[m] == s.memberships[m])
    && (forall k :: k in s.outbox ==> k in t.outbox && t.outbox[k] == s.outbox[k])
    && (forall r :: r in s.rawItems ==> r in t.rawItems && t.rawItems[r] == s.rawItems[r])
  }

  lemma AcquireItemJoins(s: Store, claim: Claim, target: Target, item: Item, now: Instant)
    requires AcquireItem(s, claim, target, item, now).Done?
    ensures var t := AcquireItem(s, claim, target, item, now).store;
            Kept(s, t) && JoinedBy(s, t, claim, KeyOf(target.source, item), now)
  {
    FirstIsOldest(s.revisions, KeyOf(target.source, item));
  }

  lemma AcquireItemAdds(s: Store, claim: Claim, target: Target, item: Item, now: Instant)
    requires AcquireItem(s, claim, target, item, now).Done?
    ensures var t := AcquireItem(s, claim, target, item, now).store;
            var raw := KeyOf(target.source, item);
            && t.memberships.Keys == s.memberships.Keys + {(claim.id, raw)}
            && t.outbox.Keys == s.outbox.Keys + {Normalization(raw, claim.id.workflowVersion)}
  {}

  lemma JoinedLater(s: Store, s1: Store, t: Store, claim: Claim, raw: RawId, now: Instant)
    requires Kept(s1, t) && JoinedBy(s, s1, claim, raw, now) && s1.revisions == s.revisions
    ensures JoinedBy(s, t, claim, raw, now)
  {}

  lemma JoinedFromLater(s: Store, s1: Store, t: Store, claim: Claim, first: RawId, raw: RawId, now: Instant)
    requires Kept(s, s1) && JoinedBy(s1, t, claim, raw, now) && raw != first
    requires s1.memberships.Keys == s.memberships.Keys + {(claim.id, first)}
    requires s1.outbox.Keys == s.outbox.Keys + {Normalization(first, claim.id.workflowVersion)}
    ensures JoinedBy(s, t, claim, raw, now)
  {}

  lemma {:induction false} ItemsJoined(s: Store, claim: Claim, target: Target, items: seq<Item>, now: Instant)
    requires AcquireItems(s, claim, target, items, now).Done?
    ensures var t := AcquireItems(s, claim, target, items, now).store;
            && Kept(s, t)
            && forall i {:trigger items[i]} :: 0 <= i < |items| ==>
                 JoinedBy(s, t, claim, KeyOf(target.source, items[i]), now)
    decreases |items|
  {
    if items != [] {
      var s1, t := AcquireItem(s, claim, target, items[0], now).store, AcquireItems(s, claim, target, items, now).store;
      AcquireItemJoins(s, claim, target, items[0], now);
      AcquireItemAdds(s, claim, target, items[0], now);
      ItemsJoined(s1, claim, target, items[1..], now);
      var first := KeyOf(target.source, items[0]);
      JoinedLater(s, s1, t, claim, first, now);
      forall i {:trigger items[i]} | 0 <= i < |items|
        ensures JoinedBy(s, t, claim, KeyOf(target.source, items[i]), now)
      {
        var raw := KeyOf(target.source, items[i]);
        if raw != first {
          assert items[i] == items[1..][i - 1];
          JoinedFromLater(s, s1, t, claim, first, raw, now);
        }
      }
    }
  }

  // ---------- The commit ----------

  lemma CommitItems(s: Store, claim: Claim, r: PageResult, now: Instant)
    requires CommitPage(s, claim, r, now).Done?
    ensures ReadTarget(s.catalog, claim.target.id).Some?
    ensures var target := ReadTarget(s.catalog, claim.target.id).value;
            var (o, t) := (AcquireItems(s, claim, target, r.items, now), CommitPage(s, claim, r, now).store);
            && o.Done? && t.rawItems == o.store.rawItems && t.memberships == o.store.memberships
            && forall raw, v :: Normalization(raw, v) in o.store.outbox ==>
                 var key := Normalization(raw, v);
                 key in t.outbox && t.outbox[key] == o.store.outbox[key]
  {
    AcquireItemsFrame(s, claim, ReadTarget(s.catalog, claim.target.id).value, r.items, now);
  }

  /** A new raw row has the rights of the first item with its key: the target's, narrowed by what that item declares. */
  lemma CommitStoresRights(s: Store, claim: Claim, r: PageResult, now: Instant, i: nat)
    requires CommitPage(s, claim, r, now).Done? && i < |r.items|
    requires ReadTarget(s.catalog, claim.target.id).Some?
    requires var source := ReadTarget(s.catalog, claim.target.id).value.source;
             KeyOf(source, r.items[i]) !in s.rawItems && FirstOfKey(source, r.items, i)
    ensures var target := ReadTarget(s.catalog, claim.target.id).value;
            var (t, raw) := (CommitPage(s, claim, r, now).store, KeyOf(target.source, r.items[i]));
            && r.items[i].rights.Declared? && raw in t.rawItems
            && t.rawItems[raw].run == claim.run && t.rawItems[raw].collectedAt == now
            && Narrowed(t.rawItems[raw].rights, target.policy, r.items[i].rights)
  {
    CommitItems(s, claim, r, now);
    RowStored(s, claim, ReadTarget(s.catalog, claim.target.id).value, r.items, now, i);
  }

  /** Every item of the page becomes a member of the partition and has its normalization scheduled, if not before. */
  lemma CommitJoinsItems(s: Store, claim: Claim, r: PageResult, now: Instant, i: nat)
    requires CommitPage(s, claim, r, now).Done? && i < |r.items|
    ensures ReadTarget(s.catalog, claim.target.id).Some?
    ensures var source := ReadTarget(s.catalog, claim.target.id).value.source;
            JoinedBy(s, CommitPage(s, claim, r, now).store, claim, KeyOf(source, r.items[i]), now)
  {
    CommitItems(s, claim, r, now);
    ItemsJoined(s, claim, ReadTarget(s.catalog, claim.target.id).value, r.items, now);
  }
}

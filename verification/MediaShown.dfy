/**
 What a product shows: at most one record for its image, whose URL is in its column. The column is written by
 the product's id, whoever the product belongs to, and the menu service writes it as well; the theorems say
 exactly which steps break the agreement.
 */
module MediaShown {
  import opened Wrappers
  import opened Media
  import opened MediaSafety
  import opened MediaAccounting

  /** No slot (tenant, entity, media type) has two records. */
  ghost predicate OnePerSlot(s: Store) {
    forall i, j | i in s.records && j in s.records ::
      var r := s.records[j];
      SameSlot(s.records[i], r.tenant, r.entityType, r.entityId, r.mediaType) ==> i == j
  }

  /** The record is the image of the product with this column. */
  predicate ImageOf(r: Record, c: Column) {
    c.ProductImage? && ColumnOf(r) == Some(c)
  }

  /** No product has two image records, of whatever tenants. */
  ghost predicate OnePerProduct(s: Store) {
    forall i, j, c | i in s.records && j in s.records && ImageOf(s.records[i], c) && ImageOf(s.records[j], c) :: i == j
  }

  /** This is what the column of a product should hold: the URL of its record, or nothing. */
  ghost predicate Mirrors(s: Store, c: Column, url: Option<string>) {
    && (forall id :: id in s.records && ImageOf(s.records[id], c) ==> url == Some(s.records[id].originalUrl))
    && (url.Some? ==> exists id :: id in s.records && ImageOf(s.records[id], c))
  }

  ghost predicate ImageShown(s: Store) {
    && (forall id, c :: id in s.records && ImageOf(s.records[id], c) ==> c in s.columns)
    && (forall c :: c in s.columns && c.ProductImage? ==> Mirrors(s, c, s.columns[c]))
  }

  ghost predicate Shown(s: Store) {
    OnePerSlot(s) && OnePerProduct(s) && ImageShown(s) && forall id :: id in s.records ==> id < s.nextId
  }

  /** Nobody else has an image record for the product that the column belongs to. */
  ghost predicate NoOtherTenant(s: Store, c: Option<Column>, tenant: string) {
    forall id :: id in s.records && c.Some? && ImageOf(s.records[id], c.value) ==> s.records[id].tenant == tenant
  }

  /** Image records of one product and one tenant are in the same slot. */
  lemma ImagesShareSlot(r: Record, q: Record, c: Column)
    requires ImageOf(r, c) && ImageOf(q, c)
    ensures SameSlot(q, r.tenant, r.entityType, r.entityId, r.mediaType) <==> q.tenant == r.tenant
  {
  }

  lemma SlotHasImage(r: Record, q: Record, c: Column)
    requires SameSlot(q, r.tenant, r.entityType, r.entityId, r.mediaType)
    ensures ImageOf(q, c) <==> ImageOf(r, c)
  {
  }

  /** The rows after the transaction of an upload. */
  ghost predicate Replaces(s: Store, t: Store, r: Record, existing: Option<nat>) {
    && Finds(s, existing, (q: Record) => SameSlot(q, r.tenant, r.entityType, r.entityId, r.mediaType))
    && (forall id :: id in t.records <==> id == s.nextId || (id in s.records && existing != Some(id)))
    && (forall id :: id in t.records && id != s.nextId ==> t.records[id] == s.records[id])
    && s.nextId in t.records && t.records[s.nextId] == r && t.nextId == s.nextId + 1
    && (ColumnOf(r).Some? ==> ColumnOf(r).value in s.columns)
    && t.columns == if ColumnOf(r).Some? then s.columns[ColumnOf(r).value := Some(r.originalUrl)] else s.columns
  }

  lemma ReplaceShape(s: Store, r: Record, existing: Option<nat>)
    requires Shown(s) && Replace(s, r, existing).Some?
    requires Finds(s, existing, (q: Record) => SameSlot(q, r.tenant, r.entityType, r.entityId, r.mediaType))
    ensures Replaces(s, Replace(s, r, existing).value.store, r, existing)
  {
    hide ColumnOf, SameSlot, ImageOf, OnePerSlot, OnePerProduct, ImageShown;
  }

  /** No record of the new one's slot is left. */
  lemma SlotIsFree(s: Store, t: Store, r: Record, existing: Option<nat>)
    requires OnePerSlot(s) && Replaces(s, t, r, existing) && forall id :: id in s.records ==> id < s.nextId
    ensures forall id :: id in t.records && id != s.nextId ==>
              !SameSlot(t.records[id], r.tenant, r.entityType, r.entityId, r.mediaType)
    ensures OnePerSlot(t)
  {
  }

  /** Another tenant's record for the same product stays beside the new one. */
  lemma OtherTenantStays(s: Store, t: Store, r: Record, existing: Option<nat>)
    requires Replaces(s, t, r, existing) && (forall id :: id in s.records ==> id < s.nextId)
    requires ColumnOf(r).Some? && ColumnOf(r).value.ProductImage? && !NoOtherTenant(s, ColumnOf(r), r.tenant)
    ensures !OnePerProduct(t)
  {
    hide ColumnOf;
    var c := ColumnOf(r).value;
    var id :| id in s.records && ImageOf(s.records[id], c) && s.records[id].tenant != r.tenant;
    assert id in t.records && ImageOf(t.records[id], c) && ImageOf(t.records[s.nextId], c);
  }

  /** Without such a record, the new one is the only image of its product. */
  lemma ImageIsFree(s: Store, t: Store, r: Record, existing: Option<nat>)
    requires Shown(s) && Replaces(s, t, r, existing) && NoOtherTenant(s, ColumnOf(r), r.tenant)
    ensures forall id, c :: id in t.records && id != s.nextId && ImageOf(t.records[id], c) ==> !ImageOf(r, c)
  {
    SlotIsFree(s, t, r, existing);
    forall id, c | id in t.records && id != s.nextId && ImageOf(t.records[id], c) ensures !ImageOf(r, c) {
      if ImageOf(r, c) {
        ImagesShareSlot(r, t.records[id], c);
      }
    }
  }

  /** The old record, if any, is an image of the same product as the new one. */
  lemma ExistingImage(s: Store, t: Store, r: Record, existing: Option<nat>, id: nat, c: Column)
    requires Replaces(s, t, r, existing) && id in s.records && ImageOf(s.records[id], c) && !ImageOf(r, c)
    ensures id in t.records
  {
    if existing == Some(id) { SlotHasImage(r, s.records[id], c); }
  }

  lemma MirrorsAfter(s: Store, t: Store, r: Record, existing: Option<nat>, c: Column)
    requires Shown(s) && Replaces(s, t, r, existing) && NoOtherTenant(s, ColumnOf(r), r.tenant)
    requires c in t.columns && c.ProductImage?
    ensures Mirrors(t, c, t.columns[c])
  {
    ImageIsFree(s, t, r, existing);
    hide Finds, OnePerSlot, OnePerProduct;
    if ImageOf(r, c) {
      assert ImageOf(t.records[s.nextId], c);
    } else {
      assert t.columns[c] == s.columns[c] && Mirrors(s, c, s.columns[c]);
      if t.columns[c].Some? {
        var id :| id in s.records && ImageOf(s.records[id], c);
        ExistingImage(s, t, r, existing, id, c);
      }
    }
  }

  /** Exactly when the transaction of an upload keeps what products show. */
  lemma ReplaceShownExactly(s: Store, t: Store, r: Record, existing: Option<nat>)
    requires Shown(s) && Replaces(s, t, r, existing)
    ensures Shown(t) <==> NoOtherTenant(s, ColumnOf(r), r.tenant)
  {
    if !NoOtherTenant(s, ColumnOf(r), r.tenant) {
      OtherTenantStays(s, t, r, existing);
    } else {
      SlotIsFree(s, t, r, existing);
      ImageIsFree(s, t, r, existing);
      forall c | c in t.columns && c.ProductImage? ensures Mirrors(t, c, t.columns[c]) {
        MirrorsAfter(s, t, r, existing, c);
      }
      hide Mirrors, Finds, SameSlot, OnePerSlot;
      assert OnePerProduct(t);
    }
  }

  lemma DropShown(s: Store, id: nat)
    requires Shown(s) && id in s.records
             && (ColumnOf(s.records[id]).Some? ==> ColumnOf(s.records[id]).value in s.columns)
    ensures var c := ColumnOf(s.records[id]);
            Shown(s.(records := s.records - {id}, columns := if c.Some? then s.columns[c.value := None] else s.columns))
  {
    hide ColumnOf, SameSlot;
    var c := ColumnOf(s.records[id]);
    var t := s.(records := s.records - {id}, columns := if c.Some? then s.columns[c.value := None] else s.columns);
    forall d | d in t.columns && d.ProductImage? ensures Mirrors(t, d, t.columns[d]) {
      if c != Some(d) {
        assert Mirrors(s, d, s.columns[d]);
        if s.columns[d].Some? {
          var i :| i in s.records && ImageOf(s.records[i], d);
          assert i in t.records;
        }
      }
    }
  }

  lemma RowsShown(s: Store, t: Store)
    requires SameRows(s, t)
    ensures Shown(s) <==> Shown(t)
  {
  }

  /** The upload commits, for a product that shows an image record of another tenant. */
  ghost predicate Intrudes(s: Store, req: Request, tries: seq<Try>) {
    && Lands(s.columns, req, tries, 0)
    && !NoOtherTenant(s, UrlColumn(req.tenant, req.entityType, req.entityId, req.mediaType), req.tenant)
  }

  /** The upload keeps what products show, if and only if it fails or nobody else has an image there. */
  ghost predicate UploadKeepsShown(
    s: Store, req: Request, known: Option<Record>, existing: Option<nat>, tries: seq<Try>, n: nat)
    requires ValidRequest(req) && |tries| == MAX_SERIALIZATION_RETRIES && n < |tries|
  {
    var c := UrlColumn(req.tenant, req.entityType, req.entityId, req.mediaType);
    Shown(UploadFrom(s, req, known, existing, tries, n).0) <==>
    !Lands(s.columns, req, tries, n) || NoOtherTenant(s, c, req.tenant)
  }

  /** Exactly when an upload, with its retries, keeps what products show. */
  lemma {:induction false} UploadShownExactly(
    s: Store, req: Request, known: Option<Record>, existing: Option<nat>, tries: seq<Try>, n: nat)
    requires Shown(s) && ValidRequest(req) && |tries| == MAX_SERIALIZATION_RETRIES && n < |tries|
    requires FindsExisting(s, req, existing)
    ensures UploadKeepsShown(s, req, known, existing, tries, n)
    decreases |tries| - n
  {
    hide Shown, UrlColumn, Lands, FaultOf, Finds, NoOtherTenant, UploadFrom, PrefixOf, Wrote, WroteFrom, Attempt;
    var t := tries[n];
    var a := Attempt(s, req, known, existing, t);
    var u := UploadFrom(s, req, known, existing, tries, n).0;
    UploadUnfolds(s, req, known, existing, tries, n);
    AttemptFault(s, req, known, existing, t);
    LandsStep(s.columns, req, tries, n);
    if a.Success? {
      CommitShownExactly(s, req, known, existing, t);
      RowsShown(a.store, u);
    } else {
      RowsShown(s, a.store);
      if a.fault.Retryable? && n + 1 < MAX_SERIALIZATION_RETRIES {
        SameImages(s, a.store, req);
        UploadShownExactly(a.store, req, known, existing, tries, n + 1);
      } else {
        RowsShown(a.store, u);
        NoneAfterLast(s.columns, req, known.Some?, tries);
      }
    }
  }

  lemma SameImages(s: Store, t: Store, req: Request)
    requires SameRows(s, t)
    ensures forall c :: NoOtherTenant(s, c, req.tenant) <==> NoOtherTenant(t, c, req.tenant)
    ensures forall existing :: FindsExisting(s, req, existing) <==> FindsExisting(t, req, existing)
  {
  }

  lemma CommitShownExactly(s: Store, req: Request, known: Option<Record>, existing: Option<nat>, t: Try)
    requires Shown(s) && ValidRequest(req) && FindsExisting(s, req, existing)
    requires Attempt(s, req, known, existing, t).Success?
    ensures var c := UrlColumn(req.tenant, req.entityType, req.entityId, req.mediaType);
            Shown(Attempt(s, req, known, existing, t).store) <==> NoOtherTenant(s, c, req.tenant)
  {
    var w, r := Written(s, req, known, t), NewRecord(req, known, t);
    WrittenRows(s, req, known, t);
    RowsShown(s, w);
    SameImages(s, w, req);
    hide Shown, Written, NoOtherTenant, UrlColumn, PrefixOf;
    ReplaceShape(w, r, existing);
    ReplaceShownExactly(w, Replace(w, r, existing).value.store, r, existing);
  }

  lemma {:induction false} RemoveShown(s: Store, id: nat, tries: seq<RemoveTry>, n: nat)
    requires Shown(s) && |tries| == MAX_SERIALIZATION_RETRIES && n < |tries| && id in s.records
    ensures Shown(RemoveFrom(s, id, tries, n).0)
    decreases |tries| - n
  {
    hide Shown, ColumnOf;
    var s1 := QueueSteps(s, tries[n].before);
    QueueStepsShrink(s, tries[n].before);
    RowsShown(s, s1);
    var c := ColumnOf(s1.records[id]);
    var fault := if tries[n].fault.None? && c.Some? && c.value !in s1.columns then Some(Fatal) else tries[n].fault;
    if fault.None? {
      DropShown(s1, id);
      RowsShown(s1.(records := s1.records - {id},
                    columns := if c.Some? then s1.columns[c.value := None] else s1.columns),
                RemoveFrom(s, id, tries, n).0);
    } else if fault.value.Retryable? && n + 1 < MAX_SERIALIZATION_RETRIES {
      RemoveShown(s1, id, tries, n + 1);
    }
  }

  /** A direct write keeps what products show exactly if it writes what the records say. */
  lemma SetImageShownExactly(s: Store, product: string, url: Option<string>)
    requires Shown(s)
    ensures Shown(s.(columns := s.columns[ProductImage(product) := url])) <==> Mirrors(s, ProductImage(product), url)
  {
    hide OnePerSlot, OnePerProduct, ImageOf, Mirrors;
    var c0 := ProductImage(product);
    var t := s.(columns := s.columns[c0 := url]);
    SameRecords(s, t);
    if Mirrors(s, c0, url) {
      forall c | c in t.columns && c.ProductImage? ensures Mirrors(t, c, t.columns[c]) {
        if c != c0 { assert c in s.columns; }
      }
    } else {
      assert c0 in t.columns && t.columns[c0] == url;
    }
  }

  lemma SameRecords(s: Store, t: Store)
    requires s.records == t.records
    ensures OnePerSlot(t) == OnePerSlot(s) && OnePerProduct(t) == OnePerProduct(s)
    ensures forall c, url :: Mirrors(t, c, url) <==> Mirrors(s, c, url)
  {
  }

  // ----- runs -----

  /** The step does not intrude on another tenant's product, and writes no image URL that no record has. */
  ghost predicate Proper(s: Store, op: Op) {
    match op
    case DoUpload(req, byContent, existing, tries) =>
      ValidUpload(s, req, byContent, existing, tries) && Acceptable(req) ==> !Intrudes(s, req, tries)
    case DoSetImage(product, url) => Mirrors(s, ProductImage(product), url)
    case _ => true
  }

  /** Exactly when a step keeps what products show. */
  lemma StepShownExactly(s: Store, op: Op)
    requires Shown(s)
    ensures Shown(Apply(s, op)) <==> Proper(s, op)
  {
    hide Shown, Mirrors, Lands, NoOtherTenant, FindsContent, FreshPrefixes, Acceptable;
    match op
    case DoQueue(step) =>
      QueueStepShrinks(s, step);
      RowsShown(s, QueueStep(s, step));
    case DoRemove(id, tenant, removals) =>
      if |removals| == MAX_SERIALIZATION_RETRIES && id in s.records {
        RemoveShown(s, id, removals, 0);
      }
    case DoUpload(req, byContent, existing, tries) =>
      if ValidUpload(s, req, byContent, existing, tries) {
        UploadShownExactly(s, req, Known(s, byContent), existing, tries, 0);
      }
    case DoSetImage(product, url) => SetImageShownExactly(s, product, url);
  }

  ghost predicate ShownAlong(s: Store, ops: seq<Op>) {
    forall k :: 0 <= k <= |ops| ==> Shown(Run(s, ops[..k]))
  }

  ghost predicate ProperAlong(s: Store, ops: seq<Op>) {
    forall k :: 0 <= k < |ops| ==> Proper(Run(s, ops[..k]), ops[k])
  }

  lemma AlongSnoc(s: Store, ops: seq<Op>)
    requires ops != []
    ensures var init, op := ops[..|ops| - 1], ops[|ops| - 1];
            && (ShownAlong(s, ops) <==> ShownAlong(s, init) && Shown(Run(s, ops)))
            && (ProperAlong(s, ops) <==> ProperAlong(s, init) && Proper(Run(s, init), op))
  {
    hide Shown, Proper, Run;
    var n := |ops| - 1;
    var init := ops[..n];
    assert forall k :: 0 <= k <= n ==> init[..k] == ops[..k];
    assert forall k :: 0 <= k < n ==> init[k] == ops[k];
    assert ops[..|ops|] == ops;
  }

  lemma AlongEnds(s: Store, ops: seq<Op>)
    requires ShownAlong(s, ops)
    ensures Shown(Run(s, ops))
  {
    hide Shown, Run;
    assert ops[..|ops|] == ops;
  }

  /** Exactly when products show their images all along a run: if and only if every step is proper. */
  lemma {:induction false} RunShownExactly(s: Store, ops: seq<Op>)
    requires Shown(s)
    ensures ShownAlong(s, ops) <==> ProperAlong(s, ops)
  {
    hide Shown, Proper, Apply;
    if ops != [] {
      hide ShownAlong, ProperAlong;
      var init, op := ops[..|ops| - 1], ops[|ops| - 1];
      AlongSnoc(s, ops);
      RunShownExactly(s, init);
      if ShownAlong(s, init) {
        AlongEnds(s, init);
        StepShownExactly(Run(s, init), op);
      }
    }
  }

  /** Every image record belongs to the tenant that owns the product. */
  ghost predicate RecordsOwned(s: Store, owner: string -> string) {
    forall id, c :: id in s.records && ImageOf(s.records[id], c) ==> s.records[id].tenant == owner(c.product)
  }

  /** Uploads are for products of the same tenant, and nobody writes image URLs directly. */
  ghost predicate KeepsToOwn(op: Op, owner: string -> string) {
    match op
    case DoUpload(req, _, _, _) =>
      req.entityType == "product" && req.mediaType.IMAGE? ==> req.tenant == owner(req.entityId)
    case DoSetImage(_, _) => false
    case _ => true
  }

  lemma OwnIsProper(s: Store, op: Op, owner: string -> string)
    requires RecordsOwned(s, owner) && KeepsToOwn(op, owner)
    ensures Proper(s, op)
  {
  }

  /** A record is an old one, or what the request asked for. */
  ghost predicate NewAreAsked(s: Store, t: Store, req: Request) {
    forall id :: id in t.records ==>
      || (id in s.records && t.records[id] == s.records[id])
      || (t.records[id].tenant == req.tenant
          && ColumnOf(t.records[id]) == UrlColumn(req.tenant, req.entityType, req.entityId, req.mediaType))
  }

  lemma {:induction false} UploadRecords(
    s: Store, req: Request, known: Option<Record>, existing: Option<nat>, tries: seq<Try>, n: nat)
    requires ValidRequest(req) && |tries| == MAX_SERIALIZATION_RETRIES && n < |tries|
    ensures NewAreAsked(s, UploadFrom(s, req, known, existing, tries, n).0, req)
    decreases |tries| - n
  {
    hide NewAreAsked, Attempt;
    AttemptRecords(s, req, known, existing, tries[n]);
    var a := Attempt(s, req, known, existing, tries[n]);
    var u := UploadFrom(s, req, known, existing, tries, n).0;
    if a.Success? {
      AskedThrough(s, a.store, u, req);
    } else if a.fault.Retryable? && n + 1 < MAX_SERIALIZATION_RETRIES {
      UploadRecords(a.store, req, known, existing, tries, n + 1);
      AskedThrough(s, a.store, u, req);
    }
  }

  lemma AskedThrough(s: Store, m: Store, t: Store, req: Request)
    requires NewAreAsked(s, m, req) && (t.records == m.records || NewAreAsked(m, t, req))
    ensures NewAreAsked(s, t, req)
  {
  }

  lemma AttemptRecords(s: Store, req: Request, known: Option<Record>, existing: Option<nat>, t: Try)
    requires ValidRequest(req)
    ensures NewAreAsked(s, Attempt(s, req, known, existing, t).store, req)
  {
    AttemptFault(s, req, known, existing, t);
    WrittenRows(s, req, known, t);
    hide Written, UrlColumn, PrefixOf, FaultOf, RollBack, Tracked, InUse;
  }

  lemma {:induction false} RemoveRecords(s: Store, id: nat, tries: seq<RemoveTry>, n: nat)
    requires |tries| == MAX_SERIALIZATION_RETRIES && n < |tries| && id in s.records
    ensures RemoveFrom(s, id, tries, n).0.records.Items <= s.records.Items
    decreases |tries| - n
  {
    hide ColumnOf;
    QueueStepsShrink(s, tries[n].before);
    var s1 := QueueSteps(s, tries[n].before);
    hide QueueSteps;
    if n + 1 < MAX_SERIALIZATION_RETRIES {
      RemoveRecords(s1, id, tries, n + 1);
    }
  }

  lemma StepOwned(s: Store, op: Op, owner: string -> string)
    requires RecordsOwned(s, owner) && KeepsToOwn(op, owner)
    ensures RecordsOwned(Apply(s, op), owner)
  {
    match op
    case DoQueue(step) => QueueStepShrinks(s, step);
    case DoRemove(id, tenant, removals) =>
      if |removals| == MAX_SERIALIZATION_RETRIES && id in s.records {
        RemoveRecords(s, id, removals, 0);
        hide RemoveFrom, ColumnOf;
        var t := RemoveFrom(s, id, removals, 0).0;
        assert forall i :: i in t.records ==> (i, t.records[i]) in t.records.Items;
      }
    case DoUpload(req, byContent, existing, tries) =>
      if ValidUpload(s, req, byContent, existing, tries) {
        UploadRecords(s, req, Known(s, byContent), existing, tries, 0);
        hide UploadFrom, FreshPrefixes, Finds;
      }
  }

  /** As long as tenants upload images for their own products only, every product shows its image. */
  lemma {:induction false} OwnRunShown(s: Store, ops: seq<Op>, owner: string -> string)
    requires Shown(s) && RecordsOwned(s, owner) && forall i :: 0 <= i < |ops| ==> KeepsToOwn(ops[i], owner)
    ensures Shown(Run(s, ops)) && RecordsOwned(Run(s, ops), owner)
  {
    if ops != [] {
      hide Shown, RecordsOwned, KeepsToOwn, Apply, Proper;
      var before, op := Run(s, ops[..|ops| - 1]), ops[|ops| - 1];
      OwnRunShown(s, ops[..|ops| - 1], owner);
      OwnIsProper(before, op, owner);
      StepShownExactly(before, op);
      StepOwned(before, op, owner);
    }
  }
}

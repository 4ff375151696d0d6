/** Where the runs of the media service start, and two short runs in which a promise of it fails. */
module MediaRuns {
  import opened Wrappers
  import opened StorageKeys
  import opened Media
  import opened MediaSafety
  import opened MediaAccounting
  import opened MediaShown
  import opened MediaLeaks
  import Q = CleanupQueue

  function Start(columns: map<Column, Option<string>>): Store {
    Store(map[], 0, columns, {}, {}, Q.EMPTY)
  }

  /** The empty service satisfies all invariants. */
  lemma EmptyStore(columns: map<Column, Option<string>>)
    requires forall c :: c in columns ==> columns[c].None?
    ensures var s := Start(columns); Agree(s) && Shown(s) && QueueSound(s) && AllOwned(s)
  {
  }

  function ImageTry(stamp: string, verdict: Verdict): Try {
    Try(stamp, [], [], verdict, {}, 0)
  }

  function ImageRequest(tenant: string): Request {
    Request(tenant, "product", "p", IMAGE, "image/png", 1, "00000000")
  }

  /** One tenant uploads an image for the product "p"; every attempt would go the same way. */
  function ImageUpload(tenant: string, verdict: Verdict): Op {
    DoUpload(ImageRequest(tenant), None, None, [ImageTry("1", verdict), ImageTry("2", verdict), ImageTry("3", verdict)])
  }

  /** Where the prefix shows its tenant and its stamp, if each is a single character. */
  lemma PrefixShape(tenant: string, t: Try)
    requires |tenant| == |t.stamp| == 1
    ensures var p := PrefixOf(ImageRequest(tenant), t); |p| > 16 && [p[8]] == tenant && [p[16]] == t.stamp
  {
    var p := PrefixOf(ImageRequest(tenant), t);
    assert p[8] == tenant[0] && p[16] == t.stamp[0];
  }

  lemma StampsFresh(s: Store, tenant: string, tries: seq<Try>)
    requires |tenant| == 1 && forall p :: p in s.used ==> |p| > 8 && [p[8]] != tenant
    requires forall i :: 0 <= i < |tries| ==> |tries[i].stamp| == 1
    requires forall i, j :: 0 <= i < j < |tries| ==> tries[i].stamp != tries[j].stamp
    ensures FreshPrefixes(s, ImageRequest(tenant), tries)
  {
    hide PrefixOf;
    forall i | 0 <= i < |tries| ensures PrefixOf(ImageRequest(tenant), tries[i]) !in s.used {
      PrefixShape(tenant, tries[i]);
    }
    forall i, j | 0 <= i < j < |tries|
      ensures PrefixOf(ImageRequest(tenant), tries[i]) != PrefixOf(ImageRequest(tenant), tries[j])
    {
      PrefixShape(tenant, tries[i]);
      PrefixShape(tenant, tries[j]);
    }
  }

  lemma ImageAcceptable(tenant: string)
    ensures Acceptable(ImageRequest(tenant)) && IsHex(ImageRequest(tenant).checksum)
  {
  }

  /** The request is an input that the service accepts. */
  lemma ImageUploadValid(s: Store, tenant: string, verdict: Verdict)
    requires |tenant| == 1 && forall id :: id in s.records ==> s.records[id].tenant != tenant
    requires forall p :: p in s.used ==> |p| > 8 && [p[8]] != tenant
    ensures var op := ImageUpload(tenant, verdict);
            ValidUpload(s, op.req, op.byContent, op.existing, op.tries) && Acceptable(op.req)
  {
    hide FreshPrefixes, PrefixOf, Acceptable, IsHex;
    ImageAcceptable(tenant);
    StampsFresh(s, tenant, ImageUpload(tenant, verdict).tries);
  }

  /** What the first attempt leaves, if it commits. */
  lemma FirstCommits(s: Store, req: Request, tries: seq<Try>)
    requires ValidRequest(req) && |tries| == MAX_SERIALIZATION_RETRIES && s.records == map[] && s.used == {}
    requires tries[0].verdict == Commits && tries[0].before == [] && tries[0].after == []
    requires UrlColumn(req.tenant, req.entityType, req.entityId, req.mediaType) == Some(ProductImage("p"))
    requires ProductImage("p") in s.columns
    ensures var t := UploadFrom(s, req, None, None, tries, 0).0;
            && t.records == map[s.nextId := NewRecord(req, None, tries[0])] && t.used == {PrefixOf(req, tries[0])}
            && t.columns.Keys == s.columns.Keys
  {
    var w := Written(s, req, None, tries[0]);
    hide PrefixOf, Uploads;
    assert w.records == map[] && w.used == {PrefixOf(req, tries[0])} && w.columns == s.columns && w.nextId == s.nextId;
    hide Written, UrlColumn;
    var a := Attempt(s, req, None, None, tries[0]);
    assert ColumnOf(NewRecord(req, None, tries[0])) == Some(ProductImage("p"));
    assert a.Success? && a.dead.None?;
  }

  lemma RunOne(s: Store, op: Op)
    ensures Run(s, [op]) == Apply(s, op)
  {
    assert [op][..0] == [];
  }

  lemma RunTwo(s: Store, a: Op, b: Op)
    ensures Run(s, [a, b]) == Apply(Apply(s, a), b)
  {
    assert [a, b][..1] == [a];
    RunOne(s, a);
  }

  /** The first of two tenants that upload an image for the same product is alone there. */
  lemma FirstUpload(s: Store, tenant: string)
    requires |tenant| == 1 && s.records == map[] && s.used == {} && ProductImage("p") in s.columns
    ensures var op := ImageUpload(tenant, Commits);
            && Proper(s, op)
            && Taken(Apply(s, op), tenant)
  {
    var op := ImageUpload(tenant, Commits);
    EmptyIsProper(s, tenant);
    ApplyIsUpload(s, tenant);
    PrefixShape(tenant, op.tries[0]);
    ImageIsAsked(tenant, op.tries[0]);
    hide PrefixOf, UploadFrom, Proper, NewRecord, ImageRequest, Apply, ImageOf;
    FirstCommits(s, op.req, op.tries);
    assert s.nextId in Apply(s, op).records;
  }

  lemma ApplyIsUpload(s: Store, tenant: string)
    requires |tenant| == 1 && s.records == map[] && s.used == {}
    ensures var op := ImageUpload(tenant, Commits);
            Apply(s, op) == UploadFrom(s, op.req, None, None, op.tries, 0).0
  {
    ImageUploadValid(s, tenant, Commits);
    hide ValidUpload, Acceptable, UploadFrom;
  }

  lemma ImageIsAsked(tenant: string, t: Try)
    ensures var r := NewRecord(ImageRequest(tenant), None, t); r.tenant == tenant && ImageOf(r, ProductImage("p"))
    ensures var q := ImageRequest(tenant);
            UrlColumn(q.tenant, q.entityType, q.entityId, q.mediaType) == Some(ProductImage("p")) && ValidRequest(q)
  {
    hide PrefixOf;
  }

  lemma EmptyIsProper(s: Store, tenant: string)
    requires s.records == map[]
    ensures Proper(s, ImageUpload(tenant, Commits))
  {
    hide ValidUpload, Acceptable, Lands, UrlColumn;
  }

  /** The product has one image record, that of `tenant`. */
  ghost predicate Taken(s: Store, tenant: string) {
    && ProductImage("p") in s.columns
    && (forall p :: p in s.used ==> |p| > 8 && [p[8]] == tenant)
    && (forall id :: id in s.records ==> s.records[id].tenant == tenant)
    && exists id :: id in s.records && ImageOf(s.records[id], ProductImage("p"))
  }

  /** The second one intrudes. */
  lemma SecondUpload(s: Store, tenant: string, other: string)
    requires |tenant| == |other| == 1 && tenant != other && Taken(s, tenant)
    ensures !Proper(s, ImageUpload(other, Commits))
  {
    var op, c := ImageUpload(other, Commits), ProductImage("p");
    ImageUploadValid(s, other, Commits);
    hide PrefixOf, ValidUpload, Acceptable;
    assert FaultOf(s.columns, op.req, op.tries[0]).None?;
    RetriedNone(s.columns, op.req, op.tries, 0);
    assert Lands(s.columns, op.req, op.tries, 0);
    hide Lands, FaultOf, ImageOf;
    assert !NoOtherTenant(s, Some(c), other);
  }

  /** Tenant "a" puts an image on product "p", and then tenant "b" does: the product has two records. */
  lemma IntruderBreaks()
    ensures var s := Start(map[ProductImage("p") := None]);
            && Shown(Run(s, [ImageUpload("a", Commits)]))
            && !Shown(Run(s, [ImageUpload("a", Commits), ImageUpload("b", Commits)]))
  {
    var c := ProductImage("p");
    var s := Start(map[c := None]);
    hide Shown, Apply, Proper, Run, ImageUpload, Agree, QueueSound, AllOwned, Taken;
    var a, b := ImageUpload("a", Commits), ImageUpload("b", Commits);
    EmptyStore(map[c := None]);
    FirstUpload(s, "a");
    SecondUpload(Apply(s, a), "a", "b");
    StepShownExactly(s, a);
    StepShownExactly(Apply(s, a), b);
    RunOne(s, a);
    RunTwo(s, a, b);
  }

  lemma UploadFails(s: Store, tenant: string)
    requires |tenant| == 1 && s.records == map[] && s.used == {}
    ensures Leaks(s, ImageUpload(tenant, TransactionFault(Fatal)))
  {
    var op := ImageUpload(tenant, TransactionFault(Fatal));
    ImageUploadValid(s, tenant, TransactionFault(Fatal));
    RetriedNone(s.columns, op.req, op.tries, 0);
    hide PrefixOf, ValidUpload, Acceptable, RetriedUpTo;
    var p := PrefixOf(op.req, op.tries[0]);
    assert p + "-original.webp" in Wrote(IMAGE, p, false, op.tries[0].verdict);
    assert FatalAfterWrite(s.columns, op.req, false, op.tries, 0);
  }

  /** The transaction of an image upload fails for good: its files stay, and nobody knows of them. */
  lemma FatalUploadLeaks()
    ensures !AllOwned(Run(Start(map[ProductImage("p") := None]), [ImageUpload("a", TransactionFault(Fatal))]))
  {
    var s := Start(map[ProductImage("p") := None]);
    EmptyStore(s.columns);
    UploadFails(s, "a");
    hide Agree, QueueSound, AllOwned, Shown, Leaks, ImageUpload, Apply;
    var ops := [ImageUpload("a", TransactionFault(Fatal))];
    assert ops[..0] == [] && Run(s, ops[..0]) == s;
    hide Run;
    assert !NeverLeaks(s, ops);
    RunOwnedExactly(s, ops);
  }
}

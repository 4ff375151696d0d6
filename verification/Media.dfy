/**
 Media records, the files behind them and the hand-over of dead files to the cleanup queue
 (apps/api/src/media/media.service.ts).

 Requests run one after another, while steps of the cleanup queue may fall into every await of a
 request. What the environment decides (the clock, storage and transaction outcomes, the queue steps
 in between) is an argument of the operations.
 */
module Media {
  import opened Wrappers
  import opened StorageKeys
  import Q = CleanupQueue

  datatype MediaType = IMAGE | LOGO | BANNER | AVATAR | DOCUMENT

  datatype Record = Record(
    tenant: string, entityType: string, entityId: string, mediaType: MediaType,
    checksum: string, storageKey: Key, originalUrl: string)

  /** The nullable URL columns that mirror a record (`ENTITY_URL_MAP`). A product is addressed by its id alone. */
  datatype Column = ProductImage(product: string) | TenantLogo(tenant: string) | TenantBanner(tenant: string)

  /** The database, the storage, the prefixes drawn so far, and the queue. */
  datatype Store = Store(
    records: map<nat, Record>, nextId: nat, columns: map<Column, Option<string>>,
    files: set<Key>, used: set<Key>, queue: Q.State)

  datatype Request = Request(
    tenant: string, entityType: string, entityId: string, mediaType: MediaType,
    mime: string, size: nat, checksum: string)

  const MAX_SERIALIZATION_RETRIES: nat := 3

  function Folder(m: MediaType): string {
    match m
    case IMAGE => "image"
    case LOGO => "logo"
    case BANNER => "banner"
    case AVATAR => "avatar"
    case DOCUMENT => "document"
  }

  /** `MEDIA_TYPE_CONFIG`: the size limit and the allowed file types. */
  predicate Acceptable(req: Request) {
    var limit := match req.mediaType
      case IMAGE => 5 case LOGO => 2 case BANNER => 4 case AVATAR => 2 case DOCUMENT => 10;
    && req.size <= limit * 1024 * 1024
    && req.mime in (if req.mediaType.DOCUMENT? then ["application/pdf"] else ["image/jpeg", "image/png", "image/webp"])
  }

  function UrlColumn(tenant: string, entityType: string, entityId: string, m: MediaType): Option<Column> {
    if entityType == "restaurant" && m.LOGO? then Some(TenantLogo(tenant))
    else if entityType == "restaurant" && m.BANNER? then Some(TenantBanner(tenant))
    else if entityType == "product" && m.IMAGE? then Some(ProductImage(entityId))
    else None
  }

  function ColumnOf(r: Record): Option<Column> {
    UrlColumn(r.tenant, r.entityType, r.entityId, r.mediaType)
  }

  function PublicUrl(key: Key): string {
    "/uploads/" + key
  }

  // ----- queue steps that fall into an await -----

  /** A step of the queue processor, with its effect on storage. Only requests enqueue. */
  function QueueStep(s: Store, step: Q.Step): Store {
    if step.Enqueue? || step.Destroy? || !Q.Enabled(s.queue, step) then s
    else
      var gone := if step.Answer? then Q.RemovedKeys(s.queue.jobs[s.queue.running[step.p].job], step.reply) else {};
      s.(queue := Q.Apply(s.queue, step), files := s.files - gone)
  }

  function QueueSteps(s: Store, steps: seq<Q.Step>): Store {
    if steps == [] then s else QueueStep(QueueSteps(s, steps[..|steps| - 1]), steps[|steps| - 1])
  }

  function Enqueue(s: Store, kind: Q.Kind, keys: set<Key>, now: int): Store {
    s.(queue := Q.Apply(s.queue, Q.Enqueue(kind, keys, now)))
  }

  // ----- upload -----

  datatype Fault = Retryable | Fatal

  /** How one attempt goes. `written` are the image files that reached storage before the fault. */
  datatype Verdict = StorageFault(written: set<Key>, fault: Fault) | TransactionFault(fault: Fault) | Commits

  /**
   One attempt: the clock reading in its prefix, the queue steps before and after its files are written,
   its verdict, the tracked keys that `deleteBatch` fails to delete, and the clock at the end.
   */
  datatype Try = Try(
    stamp: string, before: seq<Q.Step>, after: seq<Q.Step>, verdict: Verdict, stuck: set<Key>, now: int)

  function StorageKeyOf(m: MediaType, prefix: Key): Key {
    if m.DOCUMENT? then prefix + ".pdf" else prefix
  }

  function Uploads(m: MediaType, prefix: Key): set<Key> {
    if m.DOCUMENT? then {prefix + ".pdf"} else ImageFiles(prefix)
  }

  function MainFile(m: MediaType, prefix: Key): Key {
    if m.DOCUMENT? then prefix + ".pdf" else prefix + "-original.webp"
  }

  /** The files an attempt writes: none when the content is known, all of them unless storage fails. */
  function Wrote(m: MediaType, prefix: Key, known: bool, v: Verdict): set<Key> {
    if known then {}
    else if v.StorageFault? then (if m.DOCUMENT? then {} else v.written * Uploads(m, prefix))
    else Uploads(m, prefix)
  }

  /** `attemptStorageKeys`: image keys are pushed before the upload, a document key after it. */
  function Tracked(m: MediaType, prefix: Key, known: bool, v: Verdict): set<Key> {
    if known || (m.DOCUMENT? && v.StorageFault?) then {} else Uploads(m, prefix)
  }

  datatype Committed = Committed(store: Store, id: nat, dead: Option<Key>)

  /** The serializable transaction of `upload`; an update of a missing row makes it throw. */
  function Replace(s: Store, r: Record, existing: Option<nat>): Option<Committed> {
    var c := ColumnOf(r);
    if c.Some? && c.value !in s.columns then None
    else
      var columns := if c.Some? then s.columns[c.value := Some(r.originalUrl)] else s.columns;
      var created := s.records[s.nextId := r];
      var s1 := s.(records := created, nextId := s.nextId + 1, columns := columns);
      if existing.Some? && existing.value in s.records then
        var oldKey := s.records[existing.value].storageKey;
        var kept := created - {existing.value};
        Some(Committed(s1.(records := kept), s.nextId, if InUse(kept, oldKey) then None else Some(oldKey)))
      else Some(Committed(s1, s.nextId, None))
  }

  predicate InUse(records: map<nat, Record>, key: Key) {
    exists id :: id in records && records[id].storageKey == key
  }

  /** The catch block of one attempt. */
  function RollBack(s: Store, tracked: set<Key>, fault: Fault, stuck: set<Key>, now: int): Store {
    if fault.Fatal? || tracked == {} then s
    else
      var s1 := s.(files := s.files - (tracked - stuck));
      if tracked * stuck == {} then s1 else Enqueue(s1, Q.Rollback, tracked * stuck, now)
  }

  datatype Attempted = Success(store: Store, id: nat, dead: Option<Key>) | Threw(store: Store, fault: Fault)

  predicate ValidRequest(req: Request) {
    |req.checksum| >= 8
  }

  function PrefixOf(req: Request, t: Try): Key
    requires ValidRequest(req)
  {
    Prefix(req.tenant, Folder(req.mediaType), t.stamp, req.checksum)
  }

  function NewRecord(req: Request, known: Option<Record>, t: Try): Record
    requires ValidRequest(req)
  {
    var p := PrefixOf(req, t);
    Record(req.tenant, req.entityType, req.entityId, req.mediaType, req.checksum,
           if known.Some? then known.value.storageKey else StorageKeyOf(req.mediaType, p),
           if known.Some? then known.value.originalUrl else PublicUrl(MainFile(req.mediaType, p)))
  }

  /** The store when the attempt's files are written and its transaction is about to start. */
  function Written(s: Store, req: Request, known: Option<Record>, t: Try): Store
    requires ValidRequest(req)
  {
    var p := PrefixOf(req, t);
    var s1 := QueueSteps(s, t.before);
    var s2 := if known.Some? then s1
              else s1.(files := s1.files + Wrote(req.mediaType, p, false, t.verdict), used := s1.used + {p});
    QueueSteps(s2, t.after)
  }

  function Attempt(s: Store, req: Request, known: Option<Record>, existing: Option<nat>, t: Try): Attempted
    requires ValidRequest(req)
  {
    var s1 := Written(s, req, known, t);
    var done := if t.verdict.Commits? then Replace(s1, NewRecord(req, known, t), existing) else None;
    if done.Some? then Success(done.value.store, done.value.id, done.value.dead)
    else
      var fault := if t.verdict.Commits? then Fatal else t.verdict.fault;
      Threw(RollBack(s1, Tracked(req.mediaType, PrefixOf(req, t), known.Some?, t.verdict), fault, t.stuck, t.now),
            fault)
  }

  datatype Outcome = Created(id: nat) | Failed(fault: Fault) | BadRequest

  /** `serializableRetry` around the attempts, from attempt number `n` on. */
  function UploadFrom(
    s: Store, req: Request, known: Option<Record>, existing: Option<nat>, tries: seq<Try>, n: nat): (Store, Outcome)
    requires ValidRequest(req) && |tries| == MAX_SERIALIZATION_RETRIES && n < |tries|
    decreases |tries| - n
  {
    match Attempt(s, req, known, existing, tries[n])
    case Success(s1, id, dead) =>
      (if dead.Some? then Enqueue(s1, Q.Replace, CleanupKeys(dead.value), tries[n].now) else s1, Created(id))
    case Threw(s1, fault) =>
      if fault.Fatal? || n + 1 == MAX_SERIALIZATION_RETRIES then (s1, Failed(fault))
      else UploadFrom(s1, req, known, existing, tries, n + 1)
  }

  predicate Finds(s: Store, found: Option<nat>, matches: Record -> bool) {
    if found.Some? then found.value in s.records && matches(s.records[found.value])
    else forall id :: id in s.records ==> !matches(s.records[id])
  }

  /** Whether `found` is what `findFirst` may return for ready records of the tenant with this content. */
  predicate FindsContent(s: Store, req: Request, found: Option<nat>) {
    Finds(s, found, (r: Record) => r.tenant == req.tenant && r.checksum == req.checksum)
  }

  predicate SameSlot(r: Record, tenant: string, entityType: string, entityId: string, m: MediaType) {
    r.tenant == tenant && r.entityType == entityType && r.entityId == entityId && r.mediaType == m
  }

  /** Whether `found` is what `findFirst` may return for the record that this upload replaces. */
  predicate FindsExisting(s: Store, req: Request, found: Option<nat>) {
    Finds(s, found, (r: Record) => SameSlot(r, req.tenant, req.entityType, req.entityId, req.mediaType))
  }

  function Known(s: Store, found: Option<nat>): Option<Record> {
    if found.Some? && found.value in s.records then Some(s.records[found.value]) else None
  }

  function Upload(
    s: Store, req: Request, byContent: Option<nat>, existing: Option<nat>, tries: seq<Try>): (Store, Outcome)
    requires ValidRequest(req) && |tries| == MAX_SERIALIZATION_RETRIES
  {
    if !Acceptable(req) then (s, BadRequest) else UploadFrom(s, req, Known(s, byContent), existing, tries, 0)
  }

  // ----- remove -----

  /** One attempt of the removing transaction; `fault` is what goes wrong, if anything. */
  datatype RemoveTry = RemoveTry(before: seq<Q.Step>, fault: Option<Fault>, now: int)

  datatype RemoveOutcome = Removed | NotFound | RemoveFailed(fault: Fault)

  function RemoveFrom(s: Store, id: nat, tries: seq<RemoveTry>, n: nat): (Store, RemoveOutcome)
    requires |tries| == MAX_SERIALIZATION_RETRIES && n < |tries| && id in s.records
    decreases |tries| - n
  {
    var s1 := QueueSteps(s, tries[n].before);
    if id !in s1.records then (s1, Removed)
    else
      var r := s1.records[id];
      var c := ColumnOf(r);
      var fault := if tries[n].fault.None? && c.Some? && c.value !in s1.columns then Some(Fatal) else tries[n].fault;
      if fault.None? then
        var columns := if c.Some? then s1.columns[c.value := None] else s1.columns;
        var s2 := s1.(records := s1.records - {id}, columns := columns);
        (if InUse(s2.records, r.storageKey) then s2
         else Enqueue(s2, Q.Delete, CleanupKeys(r.storageKey), tries[n].now), Removed)
      else if fault.value.Fatal? || n + 1 == MAX_SERIALIZATION_RETRIES then (s1, RemoveFailed(fault.value))
      else RemoveFrom(s1, id, tries, n + 1)
  }

  function Remove(s: Store, id: nat, tenant: string, tries: seq<RemoveTry>): (Store, RemoveOutcome)
    requires |tries| == MAX_SERIALIZATION_RETRIES
  {
    if id !in s.records || s.records[id].tenant != tenant then (s, NotFound) else RemoveFrom(s, id, tries, 0)
  }

  // ----- runs -----

  datatype Op =
    | DoUpload(req: Request, byContent: Option<nat>, existing: Option<nat>, tries: seq<Try>)
    | DoRemove(id: nat, tenant: string, removals: seq<RemoveTry>)
    | DoQueue(step: Q.Step)
    | DoSetImage(product: string, url: Option<string>)  // `createProduct` and `updateProduct` with an image URL

  /** The prefixes of an upload are drawn from the clock: none was drawn before and no two agree. */
  ghost predicate FreshPrefixes(s: Store, req: Request, tries: seq<Try>)
    requires ValidRequest(req)
  {
    && (forall i :: 0 <= i < |tries| ==> PrefixOf(req, tries[i]) !in s.used)
    && (forall i, j :: 0 <= i < j < |tries| ==> PrefixOf(req, tries[i]) != PrefixOf(req, tries[j]))
  }

  ghost predicate ValidUpload(s: Store, req: Request, byContent: Option<nat>, existing: Option<nat>, tries: seq<Try>) {
    && ValidRequest(req) && IsHex(req.checksum) && |tries| == MAX_SERIALIZATION_RETRIES
    && FreshPrefixes(s, req, tries) && FindsContent(s, req, byContent) && FindsExisting(s, req, existing)
  }

  ghost function Apply(s: Store, op: Op): Store {
    match op
    case DoUpload(req, byContent, existing, tries) =>
      if ValidUpload(s, req, byContent, existing, tries) then Upload(s, req, byContent, existing, tries).0 else s
    case DoRemove(id, tenant, removals) =>
      if |removals| == MAX_SERIALIZATION_RETRIES then Remove(s, id, tenant, removals).0 else s
    case DoQueue(step) => QueueStep(s, step)
    case DoSetImage(product, url) => s.(columns := s.columns[ProductImage(product) := url])
  }

  ghost function Run(s: Store, ops: seq<Op>): Store {
    if ops == [] then s else Apply(Run(s, ops[..|ops| - 1]), ops[|ops| - 1])
  }
}

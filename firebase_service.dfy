/** The document service: two collections of submissions and an object store
    behind one class. Creating a record always files it as pending; approving
    and rejecting write fixed sets of fields; the queries select by status and
    order newest first; uploads are validated, compressed when needed and
    stored under a path chosen by the kind of image. Platform failures are
    passed in as `fault` values, and the clock and random tokens as numbers. */
module DocumentService {
  import opened Wrappers
  import opened Text
  import opened Sorting
  import opened FirebaseTypes
  import opened FirebaseErrors
  import opened ImageProcessing

  // ---------------------------------------------------------------------
  // Error mapping

  const PERMISSION_TEXT := "No tienes permisos para realizar esta acción"
  const QUOTA_TEXT := "Se ha excedido la cuota de almacenamiento"
  const UNAUTHENTICATED_TEXT := "Debes iniciar sesión para continuar"

  /** The service's own `handleFirebaseError`: code and message default to
      `unknown` and "Error desconocido"; four codes have their own user
      message and every other value gets the connection message. */
  function HandleServiceError(error: Thrown): (r: FirebaseError)
    ensures r.code == error.Code().GetOr("unknown")
    ensures r.message == error.Message().GetOr("Error desconocido")
    ensures r.userMessage.Some?
    ensures r.userMessage.value != NETWORK_ERROR_MSG <==>
      error.Code() in {Some("permission-denied"), Some("unavailable"), Some("quota-exceeded"), Some("unauthenticated")}
    ensures error.Code() == Some("permission-denied") ==> r.userMessage == Some(PERMISSION_TEXT)
    ensures error.Code() == Some("unavailable") ==> r.userMessage == Some(UNAVAILABLE_MSG)
    ensures error.Code() == Some("quota-exceeded") ==> r.userMessage == Some(QUOTA_TEXT)
    ensures error.Code() == Some("unauthenticated") ==> r.userMessage == Some(UNAUTHENTICATED_TEXT)
  {
    var userMessage :=
      match error.Code()
      case Some("permission-denied") => PERMISSION_TEXT
      case Some("unavailable") => UNAVAILABLE_MSG
      case Some("quota-exceeded") => QUOTA_TEXT
      case Some("unauthenticated") => UNAUTHENTICATED_TEXT
      case _ => NETWORK_ERROR_MSG;
    FirebaseError(error.Code().GetOr("unknown"), error.Message().GetOr("Error desconocido"), Some(userMessage))
  }

  /** A validation failure thrown as a plain `Error` reaches the caller with
      code `unknown`, its own message, and the connection user message. */
  lemma ValidationFailureLooksLikeConnectionError(message: string)
    requires message != ""
    ensures HandleServiceError(ErrorObject("Error", message, ""))
            == FirebaseError("unknown", message, Some(NETWORK_ERROR_MSG))
  {
  }

  // ---------------------------------------------------------------------
  // Records

  /** The fields a relato is created from. */
  datatype CreateRelatoData = CreateRelatoData(
    name: string,
    surname: string,
    phone: string,
    title: string,
    content: string,
    dniImageUrl: string,
    bannerImageUrl: string)

  /** The fields a Portal de la Memoria entry is created from. */
  datatype CreatePortalMemoriaData = CreatePortalMemoriaData(
    name: string,
    surname: string,
    phone: string,
    description: string,
    dniImageUrl: string,
    imageUrl: string)

  /** Document ids: the decimal rendering of a counter, distinct by construction. */
  function DocId(n: nat): string {
    NatToString(n)
  }

  function NewRelato(id: string, data: CreateRelatoData, now: int): (d: Submission)
    ensures d.id == id && d.status == Pending
    ensures d.createdAt == Some(d.updatedAt) && d.updatedAt == now
    ensures d.approvedAt.None? && d.approvedBy.None? && d.adminNotes.None?
    ensures d.name == data.name && d.surname == data.surname && d.phone == data.phone
    ensures d.dniImageUrl == data.dniImageUrl
    ensures d.body == RelatoBody(data.title, data.content, data.bannerImageUrl)
  {
    Submission(id, data.name, data.surname, data.phone, data.dniImageUrl, Pending, Some(now), now,
               None, None, None, RelatoBody(data.title, data.content, data.bannerImageUrl))
  }

  function NewPortalMemoria(id: string, data: CreatePortalMemoriaData, now: int, userAgent: string)
    : (d: Submission)
    ensures d.id == id && d.status == Pending
    ensures d.createdAt == Some(d.updatedAt) && d.updatedAt == now
    ensures d.approvedAt.None? && d.approvedBy.None? && d.adminNotes.None?
    ensures d.name == data.name && d.surname == data.surname && d.phone == data.phone
    ensures d.dniImageUrl == data.dniImageUrl
    ensures d.body.PortalBody? && d.body.description == data.description && d.body.imageUrl == data.imageUrl
    ensures d.body.metadata == DocumentMetadata(Some(""), Some(userAgent), WebForm)
  {
    Submission(id, data.name, data.surname, data.phone, data.dniImageUrl, Pending, Some(now), now,
               None, None, None,
               PortalBody(data.description, data.imageUrl, DocumentMetadata(Some(""), Some(userAgent), WebForm)))
  }

  /** The update `approveSubmission` writes, whatever the current status. */
  function Approve(d: Submission, adminId: string, now: int): (r: Submission)
    ensures r.status == Approved && r.approvedBy == Some(adminId)
    ensures r.approvedAt == Some(now) && r.updatedAt == now
    ensures r.(status := d.status, approvedBy := d.approvedBy, approvedAt := d.approvedAt,
               updatedAt := d.updatedAt) == d
  {
    d.(status := Approved, approvedAt := Some(now), approvedBy := Some(adminId), updatedAt := now)
  }

  /** The update `rejectSubmission` writes: `approved_at` is not touched. */
  function Reject(d: Submission, adminId: string, notes: string, now: int): (r: Submission)
    ensures r.status == Rejected && r.approvedBy == Some(adminId)
    ensures r.adminNotes == Some(notes) && r.updatedAt == now
    ensures r.approvedAt == d.approvedAt
    ensures r.(status := d.status, approvedBy := d.approvedBy, adminNotes := d.adminNotes,
               updatedAt := d.updatedAt) == d
  {
    d.(status := Rejected, adminNotes := Some(notes), approvedBy := Some(adminId), updatedAt := now)
  }

  // ---------------------------------------------------------------------
  // Queries

  /** `orderBy('created_at', 'desc')`: `a` comes strictly first when it is newer. */
  function NewerThan(a: Submission, b: Submission): bool {
    a.createdAt.GetOr(0) > b.createdAt.GetOr(0)
  }

  lemma NewerThanIsStrictOrder()
    ensures StrictOrder(NewerThan)
  {
    assert forall a, b, c :: NewerThan(a, b) && NewerThan(b, c) ==> NewerThan(a, c);
  }

  /** The keys of the records in `coll` with the given status. */
  function KeysWithStatus(coll: map<string, Submission>, status: Status): set<string> {
    set k | k in coll && coll[k].status == status
  }

  /** `docs` holds exactly the records of `coll` with the given status, each
      once, newest first. */
  ghost predicate QueryResult(docs: seq<Submission>, coll: map<string, Submission>, status: Status) {
    && (forall d :: d in docs <==> d in coll.Values && d.status == status)
    && |docs| == |KeysWithStatus(coll, status)|
    && Sorted(docs, NewerThan)
  }

  /** `if (limitCount) q = query(q, limit(limitCount))`: 0 or absent means no cap. */
  function Capped(docs: seq<Submission>, limitCount: Option<nat>): (r: seq<Submission>)
    ensures limitCount.None? || limitCount.value == 0 ==> r == docs
    ensures limitCount.Some? && limitCount.value > 0 ==>
      |r| == (if limitCount.value < |docs| then limitCount.value else |docs|)
    ensures |r| <= |docs| && r == docs[..|r|]
  {
    if limitCount.Some? && 0 < limitCount.value < |docs| then docs[..limitCount.value] else docs
  }

  /** A capped query keeps the newest records: every matching record left out
      is no newer than any record kept. */
  lemma CappedKeepsNewest(full: seq<Submission>, coll: map<string, Submission>, status: Status,
                          limitCount: Option<nat>)
    requires QueryResult(full, coll, status)
    ensures forall d :: d in Capped(full, limitCount) ==> d in coll.Values && d.status == status
    ensures Sorted(Capped(full, limitCount), NewerThan)
    ensures forall d, x ::
              (d in coll.Values && d.status == status && d !in Capped(full, limitCount)
               && x in Capped(full, limitCount)) ==> !NewerThan(d, x)
  {
    var r := Capped(full, limitCount);
    forall d, x | d in coll.Values && d.status == status && d !in r && x in r
      ensures !NewerThan(d, x)
    {
      var j :| 0 <= j < |full| && full[j] == d;
      var i :| 0 <= i < |r| && r[i] == x;
      assert full[i] == x;
      assert forall m :: 0 <= m < |r| ==> full[m] != d;
      assert i < j;
    }
  }

  /** What a partial scan has gathered: the matching records whose keys have
      been visited, newest first. */
  ghost predicate Scanned(coll: map<string, Submission>, status: Status, docs: seq<Submission>, keys: set<string>) {
    && keys <= coll.Keys
    && (forall d :: d in docs <==> d.id in coll && coll[d.id] == d && d.status == status && d.id !in keys)
    && |docs| == |KeysWithStatus(coll, status) - keys|
    && Sorted(docs, NewerThan)
  }

  /** One scan step: a matching record is inserted in order. */
  function ScanNext(docs: seq<Submission>, d: Submission, status: Status): seq<Submission> {
    if d.status == status then Insert(d, docs, NewerThan) else docs
  }

  lemma ScanCount(coll: map<string, Submission>, status: Status, keys: set<string>, k: string)
    requires k in keys && k in coll
    ensures coll[k].status == status ==>
      |KeysWithStatus(coll, status) - (keys - {k})| == |KeysWithStatus(coll, status) - keys| + 1
    ensures coll[k].status != status ==>
      KeysWithStatus(coll, status) - (keys - {k}) == KeysWithStatus(coll, status) - keys
  {
    var matching := KeysWithStatus(coll, status);
    if coll[k].status == status {
      assert matching - (keys - {k}) == (matching - keys) + {k};
    }
  }

  lemma ScanMembers(docs: seq<Submission>, d: Submission, status: Status)
    ensures forall x :: x in ScanNext(docs, d, status) <==> x in docs || (x == d && d.status == status)
    ensures |ScanNext(docs, d, status)| == |docs| + (if d.status == status then 1 else 0)
  {
    if d.status == status {
      InsertPermutes(d, docs, NewerThan);
      var next := Insert(d, docs, NewerThan);
      forall x ensures x in next <==> x in docs || x == d {
        assert x in next <==> x in multiset(next);
        assert x in docs <==> x in multiset(docs);
      }
    }
  }

  lemma ScanStep(coll: map<string, Submission>, status: Status, docs: seq<Submission>, keys: set<string>, k: string)
    requires forall key :: key in coll ==> coll[key].id == key
    requires Scanned(coll, status, docs, keys) && k in keys
    ensures Scanned(coll, status, ScanNext(docs, coll[k], status), keys - {k})
  {
    var d := coll[k];
    ScanMembers(docs, d, status);
    ScanCount(coll, status, keys, k);
    if d.status == status {
      NewerThanIsStrictOrder();
      InsertSorted(d, docs, NewerThan);
    }
  }

  /** The Firestore `where('status', '==', status)` plus `orderBy('created_at',
      'desc')`: a scan of the collection inserting each match in order. */
  method SelectByStatus(coll: map<string, Submission>, status: Status) returns (docs: seq<Submission>)
    requires forall k :: k in coll ==> coll[k].id == k
    ensures QueryResult(docs, coll, status)
  {
    docs := [];
    var keys := coll.Keys;
    while keys != {}
      invariant Scanned(coll, status, docs, keys)
      decreases |keys|
    {
      var k :| k in keys;
      ScanStep(coll, status, docs, keys, k);
      docs := ScanNext(docs, coll[k], status);
      keys := keys - {k};
    }
    assert forall d :: d in coll.Values <==> d.id in coll && coll[d.id] == d;
  }
  // ---------------------------------------------------------------------
  // Uploads

  /** The three upload entry points: `uploadDniImage(file, type)`,
      `uploadBannerImage(file)` and `uploadPortalMemoriaImage(file)`. */
  datatype UploadKind = DniUpload(owner: SubmissionType) | BannerUpload | PortalImageUpload

  function StoragePath(kind: UploadKind): string {
    match kind
    case DniUpload(Relatos) => "relatos/dni"
    case DniUpload(PortalMemoria) => "portal-memoria/dni"
    case BannerUpload => "relatos/banners"
    case PortalImageUpload => "portal-memoria/images"
  }

  function SizeLimitMB(kind: UploadKind): nat {
    if kind.DniUpload? then 5 else 10
  }

  /** The compression options `uploadImage` passes to the smart compressor. */
  function UploadOptions(storagePath: string): (o: CompressionOptions)
    ensures Contains(storagePath, "dni") ==> o == CompressionOptions(1200.0, 1200.0, 0.8, Jpeg)
    ensures !Contains(storagePath, "dni") ==> o == CompressionOptions(1920.0, 1080.0, 0.8, Jpeg)
  {
    if Contains(storagePath, "dni") then CompressionOptions(1200.0, 1200.0, 0.8, Jpeg)
    else CompressionOptions(1920.0, 1080.0, 0.8, Jpeg)
  }

  /** The routing table: each kind's path, size limit and compression bounds. */
  lemma UploadRouting(kind: UploadKind)
    ensures kind == DniUpload(Relatos) ==> StoragePath(kind) == "relatos/dni"
    ensures kind == DniUpload(PortalMemoria) ==> StoragePath(kind) == "portal-memoria/dni"
    ensures kind == BannerUpload ==> StoragePath(kind) == "relatos/banners"
    ensures kind == PortalImageUpload ==> StoragePath(kind) == "portal-memoria/images"
    ensures SizeLimitMB(kind) == (if kind.DniUpload? then 5 else 10)
    ensures kind.DniUpload? <==> Contains(StoragePath(kind), "dni")
    ensures kind.DniUpload? ==> UploadOptions(StoragePath(kind)).maxWidth == 1200.0
                                && UploadOptions(StoragePath(kind)).maxHeight == 1200.0
    ensures !kind.DniUpload? ==> UploadOptions(StoragePath(kind)).maxWidth == 1920.0
                                 && UploadOptions(StoragePath(kind)).maxHeight == 1080.0
  {
    var path := StoragePath(kind);
    if kind.DniUpload? {
      assert MatchAt(path, "dni", |path| - 3);
      ContainsAt(path, "dni", |path| - 3);
    } else {
      FirstCharAbsent(path, "dni");
    }
  }

  /** The service's private `generateUniqueFileName`: the text after the last
      dot is kept as it is, with no lowercasing and no default. */
  function ObjectFileName(originalName: string, timestamp: nat, randomId: string): string {
    NatToString(timestamp) + "_" + randomId + "." + LastSegment(originalName, '.')
  }

  /** The stored name ends with exactly the original extension. */
  lemma ObjectFileNameExtension(originalName: string, timestamp: nat, randomId: string)
    ensures LastSegment(ObjectFileName(originalName, timestamp, randomId), '.') == LastSegment(originalName, '.')
  {
    LastSegmentAfterDot(NatToString(timestamp) + "_" + randomId, LastSegment(originalName, '.'));
  }

  /** The part of `uploadImage` before the store is written: the object path
      and the file to store, or the value thrown along the way. */
  function PrepareUpload(file: File, storagePath: string, maxSizeMB: nat, env: ImageEnv,
                         timestamp: nat, randomId: string): Result<(string, File), Thrown>
  {
    var validation := ValidateImageFile(file, maxSizeMB);
    if !validation.isValid then Err(ErrorObject("Error", validation.error.value, ""))
    else match SmartCompressImage(file, UploadOptions(storagePath), maxSizeMB as real * 0.8, env)
      case Err(e) => Err(e)
      case Ok(f) => Ok((storagePath + "/" + ObjectFileName(f.name, timestamp, randomId), f))
  }

  /** What `PrepareUpload` yields. A rejected file throws the validator's
      message; a file that needs no compression is stored as it is;
      otherwise the compressed file is stored, or the compression error is
      thrown. The object lies under `storagePath` and keeps the stored
      file's extension, which for a compressed file is the original's
      lowercased extension or `jpg`. */
  lemma PrepareUploadOutcome(file: File, storagePath: string, maxSizeMB: nat, env: ImageEnv,
                             timestamp: nat, randomId: string)
    ensures var r := PrepareUpload(file, storagePath, maxSizeMB, env, timestamp, randomId);
      && (!ValidateImageFile(file, maxSizeMB).isValid ==>
            r == Err(ErrorObject("Error", ValidateImageFile(file, maxSizeMB).error.value, "")))
      && (ValidateImageFile(file, maxSizeMB).isValid
            && !ShouldCompressImage(file, maxSizeMB as real * 0.8, 1920.0, env.decoded) ==>
            r.Ok? && r.value.1 == file)
      && (ValidateImageFile(file, maxSizeMB).isValid
            && ShouldCompressImage(file, maxSizeMB as real * 0.8, 1920.0, env.decoded) ==>
            && (r.Ok? <==> CompressImage(file, UploadOptions(storagePath), env).Ok?)
            && (r.Ok? ==> r.value.1 == CompressImage(file, UploadOptions(storagePath), env).value.file
                          && LastSegment(r.value.0, '.') == ExtensionOrJpg(file.name))
            && (r.Err? ==> r.error == CompressImage(file, UploadOptions(storagePath), env).error))
      && (r.Ok? ==>
            && r.value.0 == storagePath + "/" + ObjectFileName(r.value.1.name, timestamp, randomId)
            && LastSegment(r.value.0, '.') == LastSegment(r.value.1.name, '.'))
  {
    var r := PrepareUpload(file, storagePath, maxSizeMB, env, timestamp, randomId);
    if r.Ok? {
      ObjectPathExtension(storagePath, r.value.1.name, timestamp, randomId);
      GeneratedNameLastSegment(file.name, env.now, env.randomId);
    }
  }

  /** The object path ends with the stored name's extension. */
  lemma ObjectPathExtension(storagePath: string, name: string, timestamp: nat, randomId: string)
    ensures LastSegment(storagePath + "/" + ObjectFileName(name, timestamp, randomId), '.') == LastSegment(name, '.')
  {
    var seg := LastSegment(name, '.');
    var stem := NatToString(timestamp) + "_" + randomId;
    assert ObjectFileName(name, timestamp, randomId) == stem + "." + seg;
    var front := storagePath + "/" + stem;
    LastSegmentAfterDot(front, seg);
    assert storagePath + "/" + (stem + "." + seg) == front + "." + seg;
  }

  /** A name generated by the compressor ends with the extension it was given. */
  lemma GeneratedNameLastSegment(originalName: string, timestamp: nat, randomId: string)
    ensures LastSegment(GenerateUniqueFileName(originalName, timestamp, randomId), '.') == ExtensionOrJpg(originalName)
  {
    LastSegmentAfterDot(NatToString(timestamp) + "_" + randomId, ExtensionOrJpg(originalName));
  }

  // ---------------------------------------------------------------------
  // The service

  class FirebaseService {
    var relatos: map<string, Submission>
    var portal: map<string, Submission>
    var objects: map<string, File>
    var nextId: nat
    const userAgent: string

    /** Every record is stored under its own id with the shape of its
        collection and a creation time; ids not yet handed out are unused. */
    ghost predicate Valid()
      reads this
    {
      && (forall k :: k in relatos ==> relatos[k].id == k && relatos[k].body.RelatoBody? && relatos[k].createdAt.Some?)
      && (forall k :: k in portal ==> portal[k].id == k && portal[k].body.PortalBody? && portal[k].createdAt.Some?)
      && (forall n: nat :: n >= nextId ==> DocId(n) !in relatos && DocId(n) !in portal)
    }

    constructor (userAgent: string)
      ensures Valid()
      ensures relatos == map[] && portal == map[] && objects == map[]
      ensures this.userAgent == userAgent
    {
      relatos, portal, objects := map[], map[], map[];
      nextId := 0;
      this.userAgent := userAgent;
    }

    function Collection(t: SubmissionType): map<string, Submission>
      reads this
    {
      if t == Relatos then relatos else portal
    }

    /** Hands out the next document id. */
    method FreshId() returns (id: string)
      requires Valid()
      modifies this
      ensures id !in relatos && id !in portal
      ensures relatos == old(relatos) && portal == old(portal) && objects == old(objects)
      ensures nextId > old(nextId)
      ensures forall n: nat :: n >= nextId ==> DocId(n) != id
      ensures Valid()
    {
      id := DocId(nextId);
      forall n: nat | n >= nextId + 1 ensures DocId(n) != id {
        if DocId(n) == id {
          NatToStringInjective(n, nextId);
        }
      }
      nextId := nextId + 1;
    }

    /** `createRelato(data)`: a new pending record whose creation and update
        times are both `now`. */
    method CreateRelato(data: CreateRelatoData, now: int, fault: Option<Thrown>)
      returns (r: Result<string, FirebaseError>)
      requires Valid()
      modifies this
      ensures Valid()
      ensures fault.Some? ==> r == Err(HandleServiceError(fault.value)) && relatos == old(relatos)
      ensures r.Ok? ==> r.value !in old(relatos) && relatos == old(relatos)[r.value := NewRelato(r.value, data, now)]
      ensures fault.None? <==> r.Ok?
      ensures portal == old(portal) && objects == old(objects)
    {
      if fault.Some? {
        return Err(HandleServiceError(fault.value));
      }
      var id := FreshId();
      relatos := relatos[id := NewRelato(id, data, now)];
      r := Ok(id);
    }

    /** `createPortalMemoria(data)`: a new pending record with web-form
        metadata, an empty IP address and the browser's user agent. */
    method CreatePortalMemoria(data: CreatePortalMemoriaData, now: int, fault: Option<Thrown>)
      returns (r: Result<string, FirebaseError>)
      requires Valid()
      modifies this
      ensures Valid()
      ensures fault.Some? ==> r == Err(HandleServiceError(fault.value)) && portal == old(portal)
      ensures r.Ok? ==> r.value !in old(portal)
                        && portal == old(portal)[r.value := NewPortalMemoria(r.value, data, now, userAgent)]
      ensures fault.None? <==> r.Ok?
      ensures relatos == old(relatos) && objects == old(objects)
    {
      if fault.Some? {
        return Err(HandleServiceError(fault.value));
      }
      var id := FreshId();
      portal := portal[id := NewPortalMemoria(id, data, now, userAgent)];
      r := Ok(id);
    }

    /** `getPendingSubmissions(type)`. */
    method GetPendingSubmissions(t: SubmissionType, fault: Option<Thrown>)
      returns (r: Result<seq<Submission>, FirebaseError>)
      requires Valid()
      ensures fault.Some? ==> r == Err(HandleServiceError(fault.value))
      ensures fault.None? ==> r.Ok? && QueryResult(r.value, Collection(t), Pending)
    {
      if fault.Some? {
        return Err(HandleServiceError(fault.value));
      }
      var docs := SelectByStatus(Collection(t), Pending);
      r := Ok(docs);
    }

    /** `getApprovedRelatos(limitCount)` and `getApprovedPortalMemoria(limitCount)`:
        the approved records newest first, cut to `limitCount` when it is truthy. */
    method GetApproved(t: SubmissionType, limitCount: Option<nat>, fault: Option<Thrown>)
      returns (r: Result<seq<Submission>, FirebaseError>)
      requires Valid()
      ensures fault.Some? ==> r == Err(HandleServiceError(fault.value))
      ensures fault.None? ==> r.Ok? && exists full :: QueryResult(full, Collection(t), Approved)
                                                      && r.value == Capped(full, limitCount)
    {
      if fault.Some? {
        return Err(HandleServiceError(fault.value));
      }
      var docs := SelectByStatus(Collection(t), Approved);
      r := Ok(Capped(docs, limitCount));
    }

    /** `getRelatoById(id)` and `getPortalMemoriaById(id)`: null iff no record has that id. */
    method GetById(t: SubmissionType, id: string, fault: Option<Thrown>)
      returns (r: Result<Option<Submission>, FirebaseError>)
      requires Valid()
      ensures fault.Some? ==> r == Err(HandleServiceError(fault.value))
      ensures fault.None? ==> r.Ok? && (r.value.None? <==> id !in Collection(t))
      ensures r.Ok? && r.value.Some? ==> r.value.value == Collection(t)[id] && r.value.value.id == id
    {
      if fault.Some? {
        return Err(HandleServiceError(fault.value));
      }
      var coll := Collection(t);
      r := Ok(if id in coll then Some(coll[id]) else None);
    }

    /** `updateDoc` on an id the collection does not hold. */
    static const NOT_FOUND := ErrorObject("FirebaseError", "No document to update", "not-found")

    /** `approveSubmission(id, type, adminId)`. */
    method ApproveSubmission(id: string, t: SubmissionType, adminId: string, now: int, fault: Option<Thrown>)
      returns (r: Result<(), FirebaseError>)
      requires Valid()
      modifies this
      ensures Valid()
      ensures fault.Some? ==> r == Err(HandleServiceError(fault.value))
      ensures fault.None? && id !in old(Collection(t)) ==> r == Err(HandleServiceError(NOT_FOUND))
      ensures r.Ok? <==> fault.None? && id in old(Collection(t))
      ensures r.Err? ==> relatos == old(relatos) && portal == old(portal)
      ensures r.Ok? ==> Collection(t) == old(Collection(t))[id := Approve(old(Collection(t))[id], adminId, now)]
      ensures r.Ok? && t == Relatos ==> portal == old(portal)
      ensures r.Ok? && t == PortalMemoria ==> relatos == old(relatos)
      ensures objects == old(objects) && nextId == old(nextId)
    {
      if fault.Some? {
        return Err(HandleServiceError(fault.value));
      }
      if id !in Collection(t) {
        return Err(HandleServiceError(NOT_FOUND));
      }
      if t == Relatos {
        relatos := relatos[id := Approve(relatos[id], adminId, now)];
      } else {
        portal := portal[id := Approve(portal[id], adminId, now)];
      }
      r := Ok(());
    }

    /** `rejectSubmission(id, type, adminId, notes)`. */
    method RejectSubmission(id: string, t: SubmissionType, adminId: string, notes: string, now: int,
                            fault: Option<Thrown>)
      returns (r: Result<(), FirebaseError>)
      requires Valid()
      modifies this
      ensures Valid()
      ensures fault.Some? ==> r == Err(HandleServiceError(fault.value))
      ensures fault.None? && id !in old(Collection(t)) ==> r == Err(HandleServiceError(NOT_FOUND))
      ensures r.Ok? <==> fault.None? && id in old(Collection(t))
      ensures r.Err? ==> relatos == old(relatos) && portal == old(portal)
      ensures r.Ok? ==> Collection(t) == old(Collection(t))[id := Reject(old(Collection(t))[id], adminId, notes, now)]
      ensures r.Ok? && t == Relatos ==> portal == old(portal)
      ensures r.Ok? && t == PortalMemoria ==> relatos == old(relatos)
      ensures objects == old(objects) && nextId == old(nextId)
    {
      if fault.Some? {
        return Err(HandleServiceError(fault.value));
      }
      if id !in Collection(t) {
        return Err(HandleServiceError(NOT_FOUND));
      }
      if t == Relatos {
        relatos := relatos[id := Reject(relatos[id], adminId, notes, now)];
      } else {
        portal := portal[id := Reject(portal[id], adminId, notes, now)];
      }
      r := Ok(());
    }

    /** `uploadImage(file, storagePath, maxSizeMB)`: the object path stands
        for the download URL. `fault` is a failure of the storage write. */
    method UploadImage(file: File, storagePath: string, maxSizeMB: nat, env: ImageEnv,
                       timestamp: nat, randomId: string, fault: Option<Thrown>)
      returns (r: Result<string, FirebaseError>)
      modifies this
      ensures relatos == old(relatos) && portal == old(portal) && nextId == old(nextId)
      ensures match PrepareUpload(file, storagePath, maxSizeMB, env, timestamp, randomId)
        case Err(e) => r == Err(HandleServiceError(e)) && objects == old(objects)
        case Ok((path, stored)) =>
          if fault.Some? then r == Err(HandleServiceError(fault.value)) && objects == old(objects)
          else r == Ok(path) && objects == old(objects)[path := stored]
    {
      var prepared := PrepareUpload(file, storagePath, maxSizeMB, env, timestamp, randomId);
      match prepared
      case Err(e) =>
        r := Err(HandleServiceError(e));
      case Ok((path, stored)) =>
        if fault.Some? {
          r := Err(HandleServiceError(fault.value));
        } else {
          objects := objects[path := stored];
          r := Ok(path);
        }
    }

    /** `uploadDniImage`, `uploadBannerImage` and `uploadPortalMemoriaImage`. */
    method Upload(kind: UploadKind, file: File, env: ImageEnv, timestamp: nat, randomId: string,
                  fault: Option<Thrown>)
      returns (r: Result<string, FirebaseError>)
      modifies this
      ensures relatos == old(relatos) && portal == old(portal) && nextId == old(nextId)
      ensures match PrepareUpload(file, StoragePath(kind), SizeLimitMB(kind), env, timestamp, randomId)
        case Err(e) => r == Err(HandleServiceError(e)) && objects == old(objects)
        case Ok((path, stored)) =>
          if fault.Some? then r == Err(HandleServiceError(fault.value)) && objects == old(objects)
          else r == Ok(path) && objects == old(objects)[path := stored]
    {
      r := UploadImage(file, StoragePath(kind), SizeLimitMB(kind), env, timestamp, randomId, fault);
    }
  }
}

/** The multi-part upload of an image document: adding parts, completing them, finalizing.
    Requests are atomic steps; what a request finds outside the database (valid metadata, a
    configured bucket, the object in S3, the queue) is part of the request. */
module Upload {
  import opened Text
  import opened Decimal
  import opened Maximum
  import opened S3Keys

  const MIN_FILES := 2
  const MAX_FILES := 35
  const MIN_PARTS := 1

  datatype DocType = Pdf | Image
  datatype DocStatus = Uploading | Uploaded | Failed
  datatype PartStatus = PartPending | PartUploaded | PartFailed
  /** `processing_state_user`; a new row starts in PROCESSING, the field's default. */
  datatype Processing = InProcess | RecoveryRequired | Ready | Partial | ProcessingFailed

  datatype Part = Part(key: string, status: PartStatus)

  /** A Document row with its DocumentSourceFile rows by order index. */
  datatype State = State(
    id: nat, docType: DocType, expected: Option<nat>, status: DocStatus, fileKey: string,
    processing: Processing, parts: map<nat, Part>)

  /** What a request is answered with. */
  datatype Reply = Created | Done | Refused | ServerError

  // ---------------------------------------------------------------- which documents these are

  /** `is_multi_image_document`. */
  predicate IsMulti(st: State) { st.expected.Some? && st.expected.value >= MIN_FILES }

  /** `is_incremental_multi_image_draft`. */
  predicate IsDraft(st: State) {
    st.docType.Image? && st.expected.None? && !st.status.Uploaded? && StripLeft(st.fileKey) == ""
  }

  /** `uses_multi_image_part_endpoints`. */
  predicate UsesParts(st: State) { IsMulti(st) || IsDraft(st) }

  // ---------------------------------------------------------------- readiness

  predicate PartUp(st: State, i: nat) { i in st.parts && st.parts[i].status.PartUploaded? }

  predicate AllUp(st: State, n: nat) { forall i :: 0 <= i < n ==> PartUp(st, i) }

  /** `all_expected_source_files_uploaded`. */
  predicate ExpectedUp(st: State) { IsMulti(st) && AllUp(st, st.expected.value) }

  /** `validate_incremental_finalize_ready` for rows whose metadata is valid: at least one
      row, order indexes 0, 1, 2, …, all uploaded and with a key. */
  predicate DraftReady(st: State) {
    && |st.parts| >= MIN_PARTS
    && (forall i :: 0 <= i < |st.parts| ==> PartUp(st, i) && StripLeft(st.parts[i].key) != "")
  }

  /** `next_incremental_part_order_index`: one past the last, 0 if there is none. */
  function NextIndex(parts: map<nat, Part>): nat {
    if parts == map[] then 0 else MaxOf(parts.Keys) + 1
  }

  // ---------------------------------------------------------------- requests

  datatype Request =
    | PartAdd(ext: string, metadataOk: bool, bucketOk: bool)
    | PartComplete(index: int, success: bool, metadataOk: bool, bucketOk: bool, objectOk: bool)
    | Finalize(success: bool, metadataOk: bool, bucketOk: bool, queued: Option<Processing>)
    | Complete(success: bool, metadataOk: bool, bucketOk: bool, objectOk: bool, queued: Option<Processing>)

  function FailDocument(st: State): State { st.(status := Failed, processing := ProcessingFailed) }

  /** The effect of enqueueing, if it touched the document's processing state. */
  function Enqueued(st: State, queued: Option<Processing>): State { st.(processing := queued.GetOr(st.processing)) }

  /** `upload_part_add`. */
  function Add(st: State, ext: string, metadataOk: bool, bucketOk: bool): (State, Reply) {
    if !IsDraft(st) || !st.status.Uploading? || !metadataOk then (st, Refused)
    else
      var i := NextIndex(st.parts);
      if i >= MAX_FILES then (st, Refused)
      else if !bucketOk then (st, ServerError)
      else (st.(parts := st.parts[i := Part(BuildSourceFileKey(st.id, i, ext), PartPending)]), Created)
  }

  function SetPart(st: State, i: nat, status: PartStatus): State
    requires i in st.parts
  {
    st.(parts := st.parts[i := st.parts[i].(status := status)])
  }

  /** The order index names a row these endpoints may complete. */
  predicate Addresses(st: State, index: int) {
    && UsesParts(st)
    && 0 <= index && (IsMulti(st) ==> index < st.expected.value)
    && index in st.parts
  }

  /** `upload_part_complete`. */
  function CompletePart(st: State, index: int, success: bool, metadataOk: bool, bucketOk: bool, objectOk: bool)
    : (State, Reply)
  {
    if !UsesParts(st) || (st.status.Failed? && success) || !Addresses(st, index) then (st, Refused)
    else if !success then (FailDocument(SetPart(st, index, PartFailed)), Done)
    else if !metadataOk || st.parts[index].key == "" then (st, Refused)
    else if !bucketOk then (st, ServerError)
    else if !objectOk then (st, Refused)
    else (SetPart(st, index, PartUploaded), Done)
  }

  /** The last part of `upload_finalize`, once the document is known to be ready. */
  function Publish(st: State, bucketOk: bool, queued: Option<Processing>): (State, Reply) {
    if 0 !in st.parts then (st, Refused)
    else if !bucketOk then (st, ServerError)
    else
      var published := st.(fileKey := st.parts[0].key, status := Uploaded,
                           processing := if st.status.Uploaded? then st.processing else InProcess);
      (Enqueued(published, queued), Done)
  }

  /** `upload_finalize`. The expected count of a draft is saved before the last checks. */
  function FinalizeUpload(st: State, success: bool, metadataOk: bool, bucketOk: bool,
                          queued: Option<Processing>): (State, Reply)
  {
    if !UsesParts(st) || st.status.Failed? then (st, Refused)
    else if !success then (FailDocument(st), Done)
    else if IsDraft(st) then
      if !DraftReady(st) then (st, Refused)
      else if !metadataOk then (st, ServerError)
      else Publish(st.(expected := Some(|st.parts|)), bucketOk, queued)
    else if !ExpectedUp(st) then (st, Refused)
    else Publish(st, bucketOk, queued)
  }

  /** `upload_complete`, the endpoint of single-file uploads. */
  function CompleteUpload(st: State, success: bool, metadataOk: bool, bucketOk: bool, objectOk: bool,
                          queued: Option<Processing>): (State, Reply)
  {
    if UsesParts(st) then (st, Refused)
    else if !success then (FailDocument(st), Done)
    else if st.fileKey == "" then (FailDocument(st), Refused)
    else if !metadataOk then (st, Refused)
    else if !bucketOk then (st, ServerError)
    else if !objectOk then (st, Refused)
    else
      var published := st.(status := Uploaded, processing := if st.status.Uploaded? then st.processing else InProcess,
                           parts := st.parts[0 := Part(st.fileKey, PartUploaded)]);
      (Enqueued(published, queued), Done)
  }

  function Step(st: State, r: Request): (State, Reply) {
    match r
    case PartAdd(ext, metadataOk, bucketOk) => Add(st, ext, metadataOk, bucketOk)
    case PartComplete(index, success, metadataOk, bucketOk, objectOk) =>
      CompletePart(st, index, success, metadataOk, bucketOk, objectOk)
    case Finalize(success, metadataOk, bucketOk, queued) => FinalizeUpload(st, success, metadataOk, bucketOk, queued)
    case Complete(success, metadataOk, bucketOk, objectOk, queued) =>
      CompleteUpload(st, success, metadataOk, bucketOk, objectOk, queued)
  }

  function After(st: State, requests: seq<Request>): State {
    if requests == [] then st
    else Step(After(st, requests[..|requests| - 1]), requests[|requests| - 1]).0
  }

  // ---------------------------------------------------------------- how such documents start

  /** A batch upload of n files: all parts exist and are pending. */
  function NewBatch(id: nat, exts: seq<string>): State {
    State(id, Image, Some(|exts|), Uploading, "", InProcess,
          map i: nat | 0 <= i < |exts| :: Part(BuildSourceFileKey(id, i, exts[i]), PartPending))
  }

  /** An incremental upload: no parts yet and no expected count. */
  function NewIncremental(id: nat): State { State(id, Image, None, Uploading, "", InProcess, map[]) }

  ghost predicate Start(st: State) {
    || st == NewIncremental(st.id)
    || exists exts: seq<string> :: MIN_FILES <= |exts| <= MAX_FILES && st == NewBatch(st.id, exts)
  }

  // ---------------------------------------------------------------- the endpoints as they run

  class DocumentUpload {
    const id: nat
    const docType: DocType
    var expected: Option<nat>
    var status: DocStatus
    var fileKey: string
    var processing: Processing
    var parts: map<nat, Part>

    function Value(): State
      reads this
    {
      State(id, docType, expected, status, fileKey, processing, parts)
    }

    /** `_create_incremental_multi_image_upload`. */
    constructor Incremental(id: nat)
      ensures Value() == NewIncremental(id)
    {
      this.id := id;
      docType, expected, status, fileKey, processing, parts := Image, None, Uploading, "", InProcess, map[];
    }

    /** `_create_multi_image_upload`: the document, then one pending row per file. */
    constructor Batch(id: nat, exts: seq<string>)
      ensures Value() == NewBatch(id, exts)
    {
      this.id := id;
      docType, expected, status, fileKey, processing, parts := Image, Some(|exts|), Uploading, "", InProcess, map[];
      new;
      for i := 0 to |exts|
        invariant Value() == State(id, Image, Some(|exts|), Uploading, "", InProcess, parts)
        invariant parts == map j: nat | 0 <= j < i :: Part(BuildSourceFileKey(id, j, exts[j]), PartPending)
      {
        parts := parts[i := Part(BuildSourceFileKey(id, i, exts[i]), PartPending)];
      }
    }

    method AddPart(ext: string, metadataOk: bool, bucketOk: bool) returns (reply: Reply)
      modifies this`parts
      ensures (Value(), reply) == Add(old(Value()), ext, metadataOk, bucketOk)
    {
      if !IsDraft(Value()) { return Refused; }
      if status.Failed? { return Refused; }
      if !status.Uploading? { return Refused; }
      if !metadataOk { return Refused; }
      var orderIndex := NextIndex(parts);
      if orderIndex >= MAX_FILES { return Refused; }
      if !bucketOk { return ServerError; }
      parts := parts[orderIndex := Part(BuildSourceFileKey(id, orderIndex, ext), PartPending)];
      return Created;
    }

    method Fail()
      modifies this`status, this`processing
      ensures Value() == FailDocument(old(Value()))
    {
      status := Failed;
      processing := ProcessingFailed;
    }

    method PartCompleted(index: int, success: bool, metadataOk: bool, bucketOk: bool,
                         objectOk: bool) returns (reply: Reply)
      modifies this
      ensures (Value(), reply) == CompletePart(old(Value()), index, success, metadataOk, bucketOk, objectOk)
    {
      if !UsesParts(Value()) { return Refused; }
      if status.Failed? && success { return Refused; }
      if IsMulti(Value()) {
        if index < 0 || index >= expected.value { return Refused; }
      } else {
        if index < 0 { return Refused; }
      }
      if index !in parts { return Refused; }
      var sourceFile := parts[index];
      if success {
        if !metadataOk { return Refused; }
        if sourceFile.key == "" { return Refused; }
        if !bucketOk { return ServerError; }
        if !objectOk { return Refused; }
        parts := parts[index := sourceFile.(status := PartUploaded)];
      } else {
        parts := parts[index := sourceFile.(status := PartFailed)];
        Fail();
      }
      return Done;
    }

    /** The loop of `all_expected_source_files_uploaded`. */
    method AllExpectedUploaded() returns (ok: bool)
      ensures ok == ExpectedUp(Value())
    {
      if expected.None? || expected.value < MIN_FILES { return false; }
      for i := 0 to expected.value
        invariant AllUp(Value(), i)
      {
        if i !in parts || !parts[i].status.PartUploaded? {
          assert !PartUp(Value(), i);
          return false;
        }
      }
      return true;
    }

    /** The loop of `validate_incremental_finalize_ready` over the rows in index order: the
        first row whose index is not its position is where an index is missing. */
    method IncrementalReady() returns (ok: bool)
      ensures ok == DraftReady(Value())
    {
      if |parts| < MIN_PARTS { return false; }
      for i := 0 to |parts|
        invariant forall j :: 0 <= j < i ==> PartUp(Value(), j) && StripLeft(parts[j].key) != ""
      {
        if i !in parts || !parts[i].status.PartUploaded? || StripLeft(parts[i].key) == "" {
          assert !(PartUp(Value(), i) && StripLeft(parts[i].key) != "");
          return false;
        }
      }
      return true;
    }

    method Finalized(success: bool, metadataOk: bool, bucketOk: bool, queued: Option<Processing>) returns (reply: Reply)
      modifies this
      ensures (Value(), reply) == FinalizeUpload(old(Value()), success, metadataOk, bucketOk, queued)
    {
      if !UsesParts(Value()) { return Refused; }
      if status.Failed? { return Refused; }
      if !success {
        Fail();
        return Done;
      }
      if IsDraft(Value()) {
        var ready := IncrementalReady();
        if !ready { return Refused; }
        if !metadataOk { return ServerError; }
        expected := Some(|parts|);
      } else {
        var ready := AllExpectedUploaded();
        if !ready { return Refused; }
      }
      if 0 !in parts { return Refused; }
      if !bucketOk { return ServerError; }
      var alreadyUploaded := status.Uploaded?;
      fileKey := parts[0].key;
      status := Uploaded;
      if !alreadyUploaded { processing := InProcess; }
      if queued.Some? { processing := queued.value; }
      return Done;
    }

    method Completed(success: bool, metadataOk: bool, bucketOk: bool, objectOk: bool, queued: Option<Processing>)
      returns (reply: Reply)
      modifies this
      ensures (Value(), reply) == CompleteUpload(old(Value()), success, metadataOk, bucketOk, objectOk, queued)
    {
      if UsesParts(Value()) { return Refused; }
      if !success {
        Fail();
        return Done;
      }
      if fileKey == "" {
        Fail();
        return Refused;
      }
      if !metadataOk { return Refused; }
      if !bucketOk { return ServerError; }
      if !objectOk { return Refused; }
      var alreadyUploaded := status.Uploaded?;
      status := Uploaded;
      if !alreadyUploaded { processing := InProcess; }
      parts := parts[0 := Part(fileKey, PartUploaded)];
      if queued.Some? { processing := queued.value; }
      return Done;
    }
  }

  // ---------------------------------------------------------------- the invariant

  /** What holds of every document started through these endpoints. */
  ghost predicate Inv(st: State) {
    && st.docType.Image?
    && (st.expected.None? ==> st.fileKey == "" && !st.status.Uploaded? && Contiguous(st.parts))
    && (st.expected.Some? ==>
          1 <= st.expected.value <= MAX_FILES && forall i :: 0 <= i < st.expected.value ==> i in st.parts)
    && (st.status.Uploaded? ==> st.expected.Some? && AllUp(st, st.expected.value))
    && (st.status.Failed? ==> st.processing.ProcessingFailed?)
    && (forall i <- st.parts :: i < MAX_FILES && exists ext :: st.parts[i].key == BuildSourceFileKey(st.id, i, ext))
    && (st.fileKey != "" ==> 0 in st.parts && st.fileKey == st.parts[0].key)
  }

  /** Order indexes run from 0 without gaps. */
  ghost predicate Contiguous(parts: map<nat, Part>) {
    forall i: nat :: i in parts <==> i < |parts|
  }

  lemma StartsInvariant(st: State)
    requires Start(st)
    ensures Inv(st)
  {
    hide BuildSourceFileKey;
  }

  lemma NextOfContiguous(parts: map<nat, Part>)
    requires Contiguous(parts)
    ensures NextIndex(parts) == |parts|
  {
    if parts != map[] {
      assert |parts| > 0;
      assert |parts| - 1 in parts.Keys;
      assert MaxOf(parts.Keys) in parts.Keys;
    }
  }

  lemma AppendContiguous(parts: map<nat, Part>, part: Part)
    requires Contiguous(parts)
    ensures Contiguous(parts[|parts| := part])
  {
    assert |parts| !in parts;
    assert |parts[|parts| := part]| == |parts| + 1;
  }

  lemma KeysNotBlank(id: nat, i: nat, ext: string)
    ensures StripLeft(BuildSourceFileKey(id, i, ext)) != "" && BuildSourceFileKey(id, i, ext) != ""
  {
    hide Print;
    assert BuildSourceFileKey(id, i, ext)[0] == 'd';
  }

  lemma StepKeepsInvariant(st: State, r: Request)
    requires Inv(st)
    ensures Inv(Step(st, r).0)
  {
    hide BuildSourceFileKey, Inv;
    match r
    case PartAdd(ext, m, b) => AddKeepsInvariant(st, ext, m, b);
    case PartComplete(i, s, m, b, o) => CompletePartKeepsInvariant(st, i, s, m, b, o);
    case Finalize(s, m, b, q) => FinalizeKeepsInvariant(st, s, m, b, q);
    case Complete(s, m, b, o, q) => CompleteKeepsInvariant(st, s, m, b, o, q);
  }

  lemma AddKeepsInvariant(st: State, ext: string, metadataOk: bool, bucketOk: bool)
    requires Inv(st)
    ensures Inv(Add(st, ext, metadataOk, bucketOk).0)
  {
    hide BuildSourceFileKey, StripLeft, NextIndex;
    if IsDraft(st) {
      NextOfContiguous(st.parts);
      AppendContiguous(st.parts, Part(BuildSourceFileKey(st.id, |st.parts|, ext), PartPending));
    }
  }

  lemma CompletePartKeepsInvariant(st: State, index: int, success: bool, metadataOk: bool, bucketOk: bool,
                                   objectOk: bool)
    requires Inv(st)
    ensures Inv(CompletePart(st, index, success, metadataOk, bucketOk, objectOk).0)
  {
    hide BuildSourceFileKey, StripLeft;
    if Addresses(st, index) {
      SetPartKeeps(st, index, PartFailed);
      SetPartKeeps(st, index, PartUploaded);
      assert forall i :: PartUp(st, i) ==> PartUp(SetPart(st, index, PartUploaded), i);
    }
  }

  lemma SetPartKeeps(st: State, i: nat, status: PartStatus)
    requires i in st.parts
    ensures var st' := SetPart(st, i, status);
            && st'.parts.Keys == st.parts.Keys && |st'.parts| == |st.parts|
            && (forall j <- st.parts :: st'.parts[j].key == st.parts[j].key)
            && (forall j <- st.parts | j != i :: st'.parts[j] == st.parts[j])
  {
    assert SetPart(st, i, status).parts.Keys == st.parts.Keys;
    assert |SetPart(st, i, status).parts.Keys| == |st.parts.Keys|;
  }

  lemma FinalizeKeepsInvariant(st: State, success: bool, metadataOk: bool, bucketOk: bool, queued: Option<Processing>)
    requires Inv(st)
    ensures Inv(FinalizeUpload(st, success, metadataOk, bucketOk, queued).0)
  {
    hide BuildSourceFileKey, StripLeft;
    if IsDraft(st) && DraftReady(st) {
      assert |st.parts| - 1 in st.parts;
    }
    var st' := FinalizeUpload(st, success, metadataOk, bucketOk, queued).0;
    assert !st'.status.Failed? ==> forall i :: PartUp(st, i) ==> PartUp(st', i);
  }

  lemma CompleteKeepsInvariant(st: State, success: bool, metadataOk: bool, bucketOk: bool, objectOk: bool,
                               queued: Option<Processing>)
    requires Inv(st)
    ensures Inv(CompleteUpload(st, success, metadataOk, bucketOk, objectOk, queued).0)
  {
    hide BuildSourceFileKey, StripLeft;
  }

  // ---------------------------------------------------------------- every run

  /** Over every run of requests an uploaded document has a positive expected count and every
      part below it uploaded. */
  lemma {:induction false} UploadedMeansComplete(st: State, requests: seq<Request>)
    requires Start(st)
    ensures Inv(After(st, requests))
    ensures var now := After(st, requests);
            now.status.Uploaded? ==> now.expected.Some? && now.expected.value >= 1 && AllUp(now, now.expected.value)
  {
    hide Inv, Step, Start;
    if requests == [] {
      StartsInvariant(st);
    } else {
      UploadedMeansComplete(st, requests[..|requests| - 1]);
      StepKeepsInvariant(After(st, requests[..|requests| - 1]), requests[|requests| - 1]);
    }
    InvUploaded(After(st, requests));
  }

  lemma InvUploaded(st: State)
    requires Inv(st)
    ensures st.status.Uploaded? ==> st.expected.Some? && st.expected.value >= 1 && AllUp(st, st.expected.value)
  {
    hide BuildSourceFileKey;
  }

  /** No two rows of a document ever share an S3 key, so adding a part never meets the
      uniqueness constraint on them. */
  lemma KeysStayDistinct(st: State, requests: seq<Request>, i: nat, j: nat)
    requires Start(st)
    requires i in After(st, requests).parts && j in After(st, requests).parts && i != j
    ensures After(st, requests).parts[i].key != After(st, requests).parts[j].key
  {
    hide After, Start, BuildSourceFileKey;
    UploadedMeansComplete(st, requests);
    var now := After(st, requests);
    var ext :| now.parts[i].key == BuildSourceFileKey(now.id, i, ext);
    var ext' :| now.parts[j].key == BuildSourceFileKey(now.id, j, ext');
    if now.parts[i].key == now.parts[j].key { SourceFileKeyInjective(now.id, i, ext, now.id, j, ext'); }
  }

  /** A step takes a part out of the uploaded state only by reporting that part's failure,
      and then the document fails with it. */
  lemma UnuploadingFailsTheDocument(st: State, r: Request, i: nat)
    requires Inv(st) && PartUp(st, i) && !PartUp(Step(st, r).0, i)
    ensures r.PartComplete? && r.index == i && !r.success
    ensures Step(st, r).0.status.Failed? && Step(st, r).0.parts[i].status.PartFailed?
  {
    hide BuildSourceFileKey, StripLeft;
    match r
    case PartAdd(ext, m, b) =>
      if IsDraft(st) { NextOfContiguous(st.parts); }
    case PartComplete(index, s, m, b, o) =>
    case Finalize(s, m, b, q) =>
    case Complete(s, m, b, o, q) =>
  }

  /** Failed, and nothing left that could revive it. */
  ghost predicate FailedForGood(st: State) { st.status.Failed? && (UsesParts(st) || st.fileKey == "") }

  lemma FailedForGoodStays(st: State, r: Request)
    requires FailedForGood(st)
    ensures FailedForGood(Step(st, r).0)
  {
    hide BuildSourceFileKey, StripLeft;
    match r
    case PartAdd(_, _, _) =>
    case PartComplete(_, _, _, _, _) =>
    case Finalize(_, _, _, _) =>
    case Complete(_, _, _, _, _) =>
  }

  lemma {:induction false} FailedForever(st: State, requests: seq<Request>)
    requires FailedForGood(st)
    ensures FailedForGood(After(st, requests))
  {
    hide FailedForGood, Step;
    if requests != [] {
      FailedForever(st, requests[..|requests| - 1]);
      FailedForGoodStays(After(st, requests[..|requests| - 1]), requests[|requests| - 1]);
    }
  }

  /** Failure is final, whatever requests follow, exactly while the part endpoints serve the
      document: a failed document that has left them with a file key can be revived. */
  lemma FailedIsFinalIff(st: State)
    requires st.status.Failed?
    ensures (forall requests :: After(st, requests).status.Failed?) <==> UsesParts(st) || st.fileKey == ""
  {
    hide BuildSourceFileKey, StripLeft, UsesParts;
    if UsesParts(st) || st.fileKey == "" {
      forall requests ensures After(st, requests).status.Failed? { FailedForever(st, requests); }
    } else {
      var r := Complete(true, true, true, true, None);
      AfterOne(st, r);
      assert After(st, [r]).status.Uploaded?;
    }
  }

  /** A successful finalize publishes the first part's file and touches no part. A document that
      was not uploaded yet is in PROCESSING afterwards, any other keeps its processing state;
      repeating it changes nothing. */
  lemma RepeatedFinalizeChangesNothing(st: State, metadataOk: bool, bucketOk: bool, metadataOk': bool, bucketOk': bool)
    requires Inv(st) && FinalizeUpload(st, true, metadataOk, bucketOk, None).1 == Done
    ensures var st' := FinalizeUpload(st, true, metadataOk, bucketOk, None).0;
            && st'.status.Uploaded? && st'.parts == st.parts
            && 0 in st.parts && st'.fileKey == st.parts[0].key
            && (if st.status.Uploaded? then st'.processing == st.processing else st'.processing.InProcess?)
            && FinalizeUpload(st', true, metadataOk', bucketOk', None).0 == st'
  {
    hide BuildSourceFileKey, StripLeft;
  }

  // ---------------------------------------------------------------- which uploads can still finish

  /** These requests bring the document to the uploaded state. */
  ghost predicate Completes(st: State, requests: seq<Request>) { After(st, requests).status.Uploaded? }

  lemma {:induction false} AfterConcat(st: State, a: seq<Request>, b: seq<Request>)
    ensures After(st, a + b) == After(After(st, a), b)
    decreases |b|
  {
    hide Step;
    if b == [] {
      assert a + b == a;
    } else {
      assert (a + b)[..|a + b| - 1] == a + b[..|b| - 1];
      AfterConcat(st, a, b[..|b| - 1]);
    }
  }

  lemma AfterOne(st: State, r: Request)
    ensures After(st, [r]) == Step(st, r).0
  {
    hide Step;
    assert [r][..0] == [] && After(st, [r][..0]) == st;
  }

  function PartDone(i: nat): Request { PartComplete(i, true, true, true, true) }

  function Completions(k: nat): seq<Request> { seq(k, i requires 0 <= i < k => PartDone(i)) }

  function FirstUp(st: State, k: nat): State {
    st.(parts := map i | i in st.parts :: if i < k then st.parts[i].(status := PartUploaded) else st.parts[i])
  }

  lemma OneMoreUp(st: State, k: nat)
    requires Inv(st) && UsesParts(st) && !st.status.Failed? && k in st.parts
    requires IsMulti(st) ==> k < st.expected.value
    ensures Step(FirstUp(st, k), PartDone(k)).0 == FirstUp(st, k + 1)
  {
    hide StripLeft, BuildSourceFileKey;
    assert st.parts[k].key != "" by {
      var ext :| st.parts[k].key == BuildSourceFileKey(st.id, k, ext);
      KeysNotBlank(st.id, k, ext);
    }
    hide Inv;
    assert SetPart(FirstUp(st, k), k, PartUploaded).parts == FirstUp(st, k + 1).parts;
  }

  /** The first k parts exist and may be completed. */
  ghost predicate Present(st: State, k: nat) {
    forall i :: 0 <= i < k ==> i in st.parts && (IsMulti(st) ==> i < st.expected.value)
  }

  lemma {:induction false} CompleteFirst(st: State, k: nat)
    requires Inv(st) && UsesParts(st) && !st.status.Failed?
    requires Present(st, k)
    ensures After(st, Completions(k)) == FirstUp(st, k)
  {
    hide Inv, Step, PartDone, UsesParts, IsMulti;
    if k == 0 {
      assert FirstUp(st, 0).parts == st.parts;
    } else {
      assert Completions(k)[..k - 1] == Completions(k - 1);
      CompleteFirst(st, k - 1);
      OneMoreUp(st, k - 1);
    }
  }

  /** How many parts the document is waiting for. */
  function Awaited(st: State): nat { if st.expected.Some? then st.expected.value else |st.parts| }

  lemma FinalizeAfterAll(st: State)
    requires Inv(st) && UsesParts(st) && !st.status.Failed? && st.parts != map[]
    ensures Present(st, Awaited(st))
    ensures FinalizeUpload(FirstUp(st, Awaited(st)), true, true, true, None).0.status.Uploaded?
  {
    hide StripLeft, BuildSourceFileKey;
    var up := FirstUp(st, Awaited(st));
    assert up.parts.Keys == st.parts.Keys && |up.parts.Keys| == |st.parts.Keys|;
    forall i <- st.parts ensures StripLeft(st.parts[i].key) != "" {
      var ext :| st.parts[i].key == BuildSourceFileKey(st.id, i, ext);
      KeysNotBlank(st.id, i, ext);
    }
  }

  lemma PartsCanFinish(st: State)
    requires Inv(st) && UsesParts(st) && !st.status.Failed? && st.parts != map[]
    ensures exists requests :: Completes(st, requests)
  {
    hide Inv, UsesParts, FinalizeUpload, BuildSourceFileKey, Present;
    FinalizeAfterAll(st);
    CompleteFirst(st, Awaited(st));
    var requests := Completions(Awaited(st)) + [Finalize(true, true, true, None)];
    assert requests[..|requests| - 1] == Completions(Awaited(st));
    assert Completes(st, requests);
  }

  lemma EmptyDraftCanFinish(st: State)
    requires Inv(st) && UsesParts(st) && !st.status.Failed? && st.parts == map[]
    ensures exists requests :: Completes(st, requests)
  {
    hide StripLeft, BuildSourceFileKey, Inv;
    var first := [PartAdd("jpg", true, true)];
    AfterOne(st, first[0]);
    var next := After(st, first);
    EmptyIsDraft(st);
    StepKeepsInvariant(st, first[0]);
    PartsCanFinish(next);
    var rest :| Completes(next, rest);
    AfterConcat(st, first, rest);
    assert Completes(st, first + rest);
  }

  lemma EmptyIsDraft(st: State)
    requires Inv(st) && UsesParts(st) && !st.status.Failed? && st.parts == map[]
    ensures IsDraft(st) && st.status.Uploading? && 0 in Add(st, "jpg", true, true).0.parts
  {
    hide StripLeft, BuildSourceFileKey;
    assert st.expected.Some? ==> 0 in st.parts;
  }

  /** Failed under the part endpoints, or left without them and without a file. */
  ghost predicate Dead(st: State) {
    if UsesParts(st) then st.status.Failed? else !st.status.Uploaded? && st.fileKey == ""
  }

  lemma DeadStays(st: State, r: Request)
    requires Dead(st)
    ensures Dead(Step(st, r).0) && !st.status.Uploaded?
  {
    hide StripLeft, BuildSourceFileKey;
    match r
    case PartAdd(_, _, _) =>
    case PartComplete(_, _, _, _, _) =>
    case Finalize(_, _, _, _) =>
    case Complete(_, _, _, _, _) =>
  }

  lemma {:induction false} DeadForever(st: State, requests: seq<Request>)
    requires Dead(st)
    ensures Dead(After(st, requests)) && !After(st, requests).status.Uploaded?
  {
    hide Dead, Step;
    if requests == [] {
      DeadStays(st, PartAdd("", true, true));
    } else {
      DeadForever(st, requests[..|requests| - 1]);
      DeadStays(After(st, requests[..|requests| - 1]), requests[|requests| - 1]);
      DeadStays(After(st, requests), PartAdd("", true, true));
    }
  }

  /** Some further requests bring the document to the uploaded state exactly when it is not
      failed under the part endpoints and has not left them without a file: nothing else
      ever blocks an upload for good. */
  lemma CanStillFinishIff(st: State)
    requires Inv(st)
    ensures (exists requests :: Completes(st, requests)) <==>
            if UsesParts(st) then !st.status.Failed? else st.status.Uploaded? || st.fileKey != ""
  {
    hide StripLeft, BuildSourceFileKey, UsesParts, Inv;
    if Dead(st) {
      forall requests ensures !Completes(st, requests) { DeadForever(st, requests); }
    } else if UsesParts(st) {
      if st.parts == map[] { EmptyDraftCanFinish(st); } else { PartsCanFinish(st); }
    } else if st.status.Uploaded? {
      assert Completes(st, []);
    } else {
      var r := Complete(true, true, true, true, None);
      AfterOne(st, r);
      assert Completes(st, [r]);
    }
  }

  /** A one-part upload, finished, reported as failed, and completed again. */
  const REVIVAL := [PartAdd("jpg", true, true), PartDone(0), Finalize(true, true, true, None),
                    Complete(false, true, true, true, None), Complete(true, true, true, true, None)]

  lemma AfterNext(st: State, requests: seq<Request>, k: nat)
    requires k < |requests|
    ensures After(st, requests[..k + 1]) == Step(After(st, requests[..k]), requests[k]).0
  {
    hide Step;
    assert requests[..k + 1][..k] == requests[..k];
  }

  lemma OneDonePart()
    ensures var up := NewIncremental(7).(parts := map[0 := Part(BuildSourceFileKey(7, 0, "jpg"), PartUploaded)]);
            After(NewIncremental(7), REVIVAL[..2]) == up && DraftReady(up) && |up.parts| == 1
  {
    hide After, BuildSourceFileKey, StripLeft;
    var st := NewIncremental(7);
    var key := BuildSourceFileKey(7, 0, "jpg");
    KeysNotBlank(7, 0, "jpg");
    NothingToStrip();
    assert REVIVAL[..0] == [];
    assert After(st, REVIVAL[..0]) == st by { AfterNothing(st); }
    AfterNext(st, REVIVAL, 0);
    var one := st.(parts := map[0 := Part(key, PartPending)]);
    assert After(st, REVIVAL[..1]) == one by { assert NextIndex(st.parts) == 0; }
    AfterNext(st, REVIVAL, 1);
    var up := st.(parts := map[0 := Part(key, PartUploaded)]);
    assert After(st, REVIVAL[..2]) == up;
    assert up.parts.Keys == {0};
  }

  /** FAILED is not absorbing: this run leaves it. */
  lemma FailureIsNotFinal()
    ensures After(NewIncremental(7), REVIVAL[..4]).status.Failed?
    ensures After(NewIncremental(7), REVIVAL).status.Uploaded?
  {
    hide After, BuildSourceFileKey, StripLeft, DraftReady;
    var st := NewIncremental(7);
    OneDonePart();
    KeysNotBlank(7, 0, "jpg");
    NothingToStrip();
    assert REVIVAL[..5] == REVIVAL;
    AfterNext(st, REVIVAL, 2);
    AfterNext(st, REVIVAL, 3);
    AfterNext(st, REVIVAL, 4);
  }

  lemma AfterNothing(st: State)
    ensures After(st, []) == st
  {
  }

  lemma NothingToStrip()
    ensures StripLeft("") == ""
  {
  }

  // ---------------------------------------------------------------- interrupted finalize

  /** A draft's finalize stopped at the missing bucket: the count is saved, nothing else. */
  ghost predicate Interrupted(before: State, after: State) {
    && Inv(before) && IsDraft(before) && before.status.Uploading? && DraftReady(before)
    && after == FinalizeUpload(before, true, true, false, None).0
  }

  /** After an interrupted finalize the upload can still be completed by some further
      requests exactly when the draft had at least two parts. */
  lemma InterruptedFinalizeRecoversIff(before: State, after: State)
    requires Interrupted(before, after)
    ensures (exists requests :: Completes(after, requests)) <==> |before.parts| >= MIN_FILES
  {
    hide BuildSourceFileKey, StripLeft;
    assert after == before.(expected := Some(|before.parts|));
    FinalizeKeepsInvariant(before, true, true, false, None);
    CanStillFinishIff(after);
  }

  /** A draft with one uploaded part is finalized while the bucket is not configured. */
  const STRANDING := REVIVAL[..2] + [Finalize(true, true, false, None)]

  /** From then on no requests complete the upload. */
  lemma OnePartIsStranded()
    ensures var before, after := After(NewIncremental(7), REVIVAL[..2]), After(NewIncremental(7), STRANDING);
            && Interrupted(before, after) && |before.parts| == 1
            && forall requests :: !Completes(after, requests)
  {
    hide After, BuildSourceFileKey, StripLeft, DraftReady, Inv, FinalizeUpload;
    var st := NewIncremental(7);
    OneDonePart();
    UploadedMeansComplete(st, REVIVAL[..2]);
    NothingToStrip();
    assert STRANDING[..2] == REVIVAL[..2] && STRANDING[..3] == STRANDING;
    AfterNext(st, STRANDING, 2);
    InterruptedFinalizeRecoversIff(After(st, REVIVAL[..2]), After(st, STRANDING));
  }
}

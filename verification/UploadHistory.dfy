/** One request, written out: what it must have found for each thing it changes. Over a history:
    every file of a published document was found in S3 by some request. */
module UploadHistory {
  import opened Text
  import opened Maximum
  import opened S3Keys
  import opened Upload

  // ---------------------------------------------------------------- the document's stage

  /** The code points that `str.strip()` removes. */
  predicate WrittenSpace(c: char) {
    var n := c as int;
    || 9 <= n <= 13 || 28 <= n <= 32 || n == 133 || n == 160 || n == 5760
    || 8192 <= n <= 8202 || n == 8232 || n == 8233 || n == 8239 || n == 8287 || n == 12288
  }

  predicate Blank(s: string) { forall c <- s :: WrittenSpace(c) }

  lemma SpaceIff(c: char)
    ensures IsSpace(c) <==> WrittenSpace(c)
  {
  }

  lemma {:induction false} BlankIff(s: string)
    ensures StripLeft(s) == "" <==> Blank(s)
  {
    if s != "" {
      BlankIff(s[1..]);
      SpaceIff(s[0]);
      assert s == [s[0]] + s[1..];
    }
  }

  /** At least two files are expected. */
  predicate Multi(st: State) { st.expected.Some? && st.expected.value >= 2 }

  /** An image document that still collects its parts. */
  predicate Draft(st: State) {
    st.docType == Image && st.expected == None && st.status != Uploaded && Blank(st.fileKey)
  }

  lemma StageIff(st: State)
    ensures IsMulti(st) <==> Multi(st)
    ensures IsDraft(st) <==> Draft(st)
    ensures UsesParts(st) <==> Multi(st) || Draft(st)
  {
    BlankIff(st.fileKey);
  }

  predicate Up(st: State, i: nat) { i in st.parts && st.parts[i].status == PartUploaded }

  /** The rows are 0, 1, … without a gap, at least one, all uploaded, all with a key. */
  predicate ReadyDraft(st: State) {
    && Draft(st) && |st.parts| >= 1
    && forall i :: 0 <= i < |st.parts| ==> Up(st, i) && !Blank(st.parts[i].key)
  }

  predicate ReadyMulti(st: State) { Multi(st) && forall i :: 0 <= i < st.expected.value ==> Up(st, i) }

  lemma ReadyIff(st: State)
    ensures IsDraft(st) && DraftReady(st) <==> ReadyDraft(st)
    ensures ExpectedUp(st) <==> ReadyMulti(st)
  {
    hide StripLeft, Blank;
    StageIff(st);
    forall i <- st.parts ensures StripLeft(st.parts[i].key) == ""
      <==> Blank(st.parts[i].key) { BlankIff(st.parts[i].key); }
    assert forall i :: PartUp(st, i) <==> Up(st, i);
  }

  /** i follows the last row. */
  ghost predicate IsNext(parts: map<nat, Part>, i: nat) {
    (forall j <- parts :: j < i) && (i > 0 ==> i - 1 in parts)
  }

  lemma NextIff(parts: map<nat, Part>, i: nat)
    ensures NextIndex(parts) == i <==> IsNext(parts, i)
  {
    if parts == map[] {
      if IsNext(parts, i) { assert i == 0; }
    } else {
      var last := MaxOf(parts.Keys);
      if IsNext(parts, i) {
        assert last < i;
        assert i - 1 in parts.Keys;
      }
    }
  }

  // ---------------------------------------------------------------- what a request does

  /** A row is appended: a new part of a draft below the limit, or the one row of a single file. */
  ghost predicate AddsRow(st: State, r: Request, i: nat) {
    && r.PartAdd? && r.metadataOk && r.bucketOk
    && Draft(st) && st.status == Uploading && IsNext(st.parts, i) && i < 35
  }

  /** The index is that of a row the part endpoints serve. */
  predicate Serves(st: State, i: nat) {
    (Multi(st) || Draft(st)) && (Multi(st) ==> i < st.expected.value) && i in st.parts
  }

  /** The part's file was found in S3. */
  predicate ConfirmsPart(st: State, r: Request, i: nat) {
    && r == PartComplete(i, true, true, true, true)
    && Serves(st, i) && st.status != Failed && st.parts[i].key != ""
  }

  predicate FailsPart(st: State, r: Request, i: nat) {
    r.PartComplete? && r.index == i && !r.success && Serves(st, i)
  }

  /** The single file was found in S3. */
  predicate ConfirmsWhole(st: State, r: Request) {
    && r.Complete? && r.success && r.metadataOk && r.bucketOk && r.objectOk
    && !Multi(st) && !Draft(st) && st.fileKey != ""
  }

  predicate FailsDocument(st: State, r: Request) {
    || (r.PartComplete? && r.index >= 0 && FailsPart(st, r, r.index))
    || (r.Finalize? && !r.success && (Multi(st) || Draft(st)) && st.status != Failed)
    || (r.Complete? && !Multi(st) && !Draft(st) && (!r.success || st.fileKey == ""))
  }

  /** The number of a draft's rows becomes its expected count. */
  predicate FixesCount(st: State, r: Request) {
    r.Finalize? && r.success && r.metadataOk && ReadyDraft(st) && st.status != Failed
  }

  predicate Publishes(st: State, r: Request) {
    && r.Finalize? && r.success && r.bucketOk && st.status != Failed
    && ((ReadyDraft(st) && r.metadataOk) || ReadyMulti(st))
  }

  /** One row after the request. */
  ghost predicate RowAfter(st: State, r: Request, i: nat, parts: map<nat, Part>) {
    if AddsRow(st, r, i) then
      i in parts && parts[i] == Part(BuildSourceFileKey(st.id, i, r.ext), PartPending)
    else if ConfirmsWhole(st, r) && i == 0 then
      i in parts && parts[i] == Part(st.fileKey, PartUploaded)
    else if ConfirmsPart(st, r, i) then
      i in parts && parts[i] == Part(st.parts[i].key, PartUploaded)
    else if FailsPart(st, r, i) then
      i in parts && parts[i] == Part(st.parts[i].key, PartFailed)
    else
      (i in parts <==> i in st.parts) && (i in parts ==> parts[i] == st.parts[i])
  }

  /** The processing state that enqueueing leaves, if it touched it. */
  function QueuedOr(r: Request, processing: Processing): Processing
    requires r.Finalize? || r.Complete?
  {
    if r.queued.Some? then r.queued.value else processing
  }

  /** The whole effect of any request on any document. */
  ghost predicate WrittenStep(st: State, r: Request, after: State) {
    && after.id == st.id && after.docType == st.docType
    && after.expected == (if FixesCount(st, r) then Some(|st.parts|) else st.expected)
    && after.status == (if FailsDocument(st, r) then Failed
                        else if Publishes(st, r) || ConfirmsWhole(st, r) then Uploaded
                        else st.status)
    && (if Publishes(st, r) then 0 in st.parts && after.fileKey == st.parts[0].key else after.fileKey == st.fileKey)
    && after.processing == (if FailsDocument(st, r) then ProcessingFailed
                            else if Publishes(st, r) || ConfirmsWhole(st, r) then
                              QueuedOr(r, if st.status == Uploaded then st.processing else InProcess)
                            else st.processing)
    && forall i: nat :: RowAfter(st, r, i, after.parts)
  }

  lemma StepWritten(st: State, r: Request)
    ensures WrittenStep(st, r, Step(st, r).0)
  {
    hide StripLeft, Blank, BuildSourceFileKey, NextIndex, IsNext, IsMulti, IsDraft, DraftReady, ReadyDraft, ReadyMulti,
         ExpectedUp, Multi, Draft;
    StageIff(st);
    ReadyIff(st);
    match r
    case PartAdd(_, _, _) => AddWritten(st, r);
    case PartComplete(_, _, _, _, _) => CompletePartWritten(st, r);
    case Finalize(_, _, _, _) => FinalizeWritten(st, r);
    case Complete(_, _, _, _, _) =>
  }

  lemma AddWritten(st: State, r: Request)
    requires r.PartAdd?
    ensures WrittenStep(st, r, Step(st, r).0)
  {
    hide StripLeft, Blank, BuildSourceFileKey, NextIndex, IsNext, IsMulti, IsDraft, Multi, Draft, FixesCount,
         ReadyDraft;
    StageIff(st);
    forall i ensures NextIndex(st.parts) == i <==> IsNext(st.parts, i) { NextIff(st.parts, i); }
    assert !FixesCount(st, r) by { NotFinalize(st, r); }
  }

  lemma NotFinalize(st: State, r: Request)
    requires !r.Finalize?
    ensures !FixesCount(st, r) && !Publishes(st, r)
  {
  }

  lemma CompletePartWritten(st: State, r: Request)
    requires r.PartComplete?
    ensures WrittenStep(st, r, Step(st, r).0)
  {
    hide StripLeft, Blank, BuildSourceFileKey, ReadyDraft, ReadyMulti, Draft, IsDraft;
    StageIff(st);
  }

  lemma FinalizeWritten(st: State, r: Request)
    requires r.Finalize?
    ensures WrittenStep(st, r, Step(st, r).0)
  {
    hide StripLeft, Blank, BuildSourceFileKey, DraftReady, ExpectedUp;
    StageIff(st);
    ReadyIff(st);
    if ReadyDraft(st) || ReadyMulti(st) { assert Up(st, 0); }
    StageIff(st.(expected := Some(|st.parts|)));
  }

  // ---------------------------------------------------------------- what a request is answered

  ghost predicate WrittenReply(st: State, r: Request, reply: Reply) {
    && (reply == Created <==> r.PartAdd? && exists i :: AddsRow(st, r, i))
    && (reply == Done <==>
          || Publishes(st, r) || ConfirmsWhole(st, r)
          || (r.PartComplete? && r.index >= 0 && ConfirmsPart(st, r, r.index))
          || (FailsDocument(st, r) && !(r.Complete? && r.success)))
    && (reply == ServerError <==>
          || (r.PartAdd? && !r.bucketOk && exists i :: AddsRow(st, PartAdd(r.ext, r.metadataOk, true), i))
          || (r.PartComplete? && !r.bucketOk && r.index >= 0 &&
                ConfirmsPart(st, PartComplete(r.index, r.success, r.metadataOk, true, true), r.index))
          || (r.Finalize? && r.success && st.status != Failed && ReadyDraft(st) && !r.metadataOk)
          || (r.Finalize? && !r.bucketOk && Publishes(st, Finalize(r.success, r.metadataOk, true, r.queued)))
          || (r.Complete? && !r.bucketOk &&
                ConfirmsWhole(st, Complete(r.success, r.metadataOk, true, true, r.queued))))
  }

  lemma ReplyWritten(st: State, r: Request)
    ensures WrittenReply(st, r, Step(st, r).1)
  {
    hide StripLeft, Blank, BuildSourceFileKey, NextIndex, IsNext, IsMulti, IsDraft, DraftReady, ReadyDraft, ReadyMulti,
         ExpectedUp, Draft;
    StageIff(st);
    ReadyIff(st);
    match r
    case PartAdd(_, _, _) =>
      var i := NextIndex(st.parts);
      forall j ensures i == j <==> IsNext(st.parts, j) { NextIff(st.parts, j); }
      assert AddsRow(st, r, i) <==> r.metadataOk && r.bucketOk && Draft(st) && st.status == Uploading && i < 35;
      assert AddsRow(st, PartAdd(r.ext, r.metadataOk, true), i) <==>
             r.metadataOk && Draft(st) && st.status == Uploading && i < 35;
    case PartComplete(_, _, _, _, _) =>
    case Finalize(_, _, _, _) => FinalizeReplyWritten(st, r);
    case Complete(_, _, _, _, _) =>
  }

  lemma FinalizeReplyWritten(st: State, r: Request)
    requires r.Finalize?
    ensures WrittenReply(st, r, Step(st, r).1)
  {
    hide StripLeft, Blank, BuildSourceFileKey, DraftReady, ExpectedUp;
    StageIff(st);
    ReadyIff(st);
    if ReadyDraft(st) || ReadyMulti(st) { assert Up(st, 0); }
  }

  // ---------------------------------------------------------------- over a history

  /** The request found the file of this part in S3. */
  predicate SawFile(r: Request, i: nat) {
    || r == PartComplete(i, true, true, true, true)
    || (i == 0 && r.Complete? && r.success && r.metadataOk && r.bucketOk && r.objectOk)
  }

  /** A part becomes uploaded only by a request that found its file. */
  lemma UploadingSeesTheFile(st: State, r: Request, i: nat)
    requires !Up(st, i) && Up(Step(st, r).0, i)
    ensures SawFile(r, i) && (r.PartComplete? ==> ConfirmsPart(st, r, i)) && (r.Complete? ==> ConfirmsWhole(st, r))
  {
    hide Step, AddsRow, BuildSourceFileKey, Draft, FixesCount, Publishes, FailsDocument;
    StepWritten(st, r);
    assert RowAfter(st, r, i, Step(st, r).0.parts);
  }

  /** This request of the run found the file, and the part stayed uploaded from then on. */
  ghost predicate SeenAt(st: State, requests: seq<Request>, i: nat, k: nat) {
    && k < |requests| && SawFile(requests[k], i)
    && forall m :: k < m <= |requests| ==> Up(After(st, requests[..m]), i)
  }

  ghost predicate Seen(st: State, requests: seq<Request>, i: nat) {
    exists k: nat :: SeenAt(st, requests, i, k)
  }

  /** Over every history, each uploaded part was found in S3 by some request. */
  lemma {:induction false} UploadedPartsWereSeen(st: State, requests: seq<Request>, i: nat)
    requires Start(st) && Up(After(st, requests), i)
    ensures Seen(st, requests, i)
    decreases |requests|
  {
    hide Step, Up, SawFile;
    StartsWithout(st, i);
    if requests != [] {
      var n := |requests| - 1;
      var front := requests[..n];
      assert requests[..|requests|] == requests;
      if Up(After(st, front), i) {
        UploadedPartsWereSeen(st, front, i);
        var k: nat :| SeenAt(st, front, i, k);
        assert forall m :: k < m <= n ==> requests[..m] == front[..m];
        assert SeenAt(st, requests, i, k);
      } else {
        UploadingSeesTheFile(After(st, front), requests[n], i);
        assert SeenAt(st, requests, i, n);
      }
    }
  }

  lemma StartsWithout(st: State, i: nat)
    requires Start(st)
    ensures !Up(st, i)
  {
    hide BuildSourceFileKey;
  }

  /** The request publishes the document, its file or its parts having been found. */
  predicate PublishingRequest(r: Request) {
    || (r.Finalize? && r.success && r.bucketOk)
    || (r.Complete? && r.success && r.metadataOk && r.bucketOk && r.objectOk)
  }

  lemma {:induction false} UploadedWasPublished(st: State, requests: seq<Request>)
    requires Start(st) && After(st, requests).status == Uploaded
    ensures exists r <- requests :: PublishingRequest(r)
    decreases |requests|
  {
    hide Step, BuildSourceFileKey;
    if requests != [] {
      var n := |requests| - 1;
      var before := After(st, requests[..n]);
      if before.status == Uploaded {
        UploadedWasPublished(st, requests[..n]);
        var r :| r in requests[..n] && PublishingRequest(r);
        assert r in requests;
      } else {
        StepWritten(before, requests[n]);
        assert PublishingRequest(requests[n]) && requests[n] in requests;
      }
    }
  }

  /** Over every history, a published document has an expected count, and for every part below it
      some request found that part's file in S3. */
  lemma PublishedFilesWereSeen(st: State, requests: seq<Request>)
    requires Start(st) && After(st, requests).status == Uploaded
    ensures var expected := After(st, requests).expected;
            && expected.Some? && expected.value >= 1
            && (forall i: nat | i < expected.value :: Seen(st, requests, i))
            && exists r <- requests :: PublishingRequest(r)
  {
    hide After, Start, Seen, PublishingRequest;
    UploadedMeansComplete(st, requests);
    UploadedWasPublished(st, requests);
    var now := After(st, requests);
    forall i: nat | i < now.expected.value ensures Seen(st, requests, i) {
      assert PartUp(now, i);
      UploadedPartsWereSeen(st, requests, i);
    }
  }
}

/** The state of the colouring-book component and the handlers that change it:
    uploading photos, removing one, and the batch conversion run. */
module ColoringBook {
  import opened Items
  import opened Conversion

  class App {
    var images: seq<SourceItem>
    var processedImages: seq<Processed>
    var isProcessing: bool
    var processingProgress: nat
    /** The error text on display, if any. */
    var error: Option<string>

    /** Never more than ten photos, a progress in percent, and every converted
        page belongs to a photo still on the list. */
    ghost predicate Valid()
      reads this
    {
      && |images| <= MaxImages
      && processingProgress <= 100
      && IdSet(processedImages, ProcessedId) <= IdSet(images, SourceId)
    }

    constructor ()
      ensures Valid()
      ensures images == [] && processedImages == []
      ensures !isProcessing && processingProgress == 0 && error == None
    {
      images := [];
      processedImages := [];
      isProcessing := false;
      processingProgress := 0;
      error := None;
    }

    /** The upload handler. `batch` holds the chosen files as the file reader
        delivers them; the whole batch is refused when it would pass the cap. */
    method Upload(batch: seq<SourceItem>) returns (accepted: bool)
      requires Valid()
      modifies this
      ensures Valid()
      ensures accepted <==> old(|images|) + |batch| <= MaxImages
      ensures images == if accepted then old(images) + batch else old(images)
      ensures processedImages == old(processedImages) && isProcessing == old(isProcessing)
      ensures processingProgress == old(processingProgress) && error == old(error)
    {
      match AcceptBatch(images, batch)
      case None =>
        accepted := false;
      case Some(all) =>
        assert all == images + batch;
        images := all;
        accepted := true;
    }

    /** The remove button: drops the photo and its converted page by id. */
    method RemoveImage(id: ImageId)
      requires Valid()
      modifies this
      ensures Valid()
      ensures images == Without(old(images), SourceId, id)
      ensures processedImages == Without(old(processedImages), ProcessedId, id)
      ensures isProcessing == old(isProcessing) && processingProgress == old(processingProgress)
      ensures error == old(error)
    {
      WithoutIdSet(images, SourceId, id);
      WithoutIdSet(processedImages, ProcessedId, id);
      images := Without(images, SourceId, id);
      processedImages := Without(processedImages, ProcessedId, id);
    }

    /** The conversion run. `replies[i]` is what the generation service (and
        the fetch of the page it links to) yields for photo `i`; `submitted`
        lists the photos posted to the service and `emitted` every value passed
        to the progress setter, in order. */
    method ProcessImages(replies: seq<Reply>) returns (submitted: seq<SourceItem>, emitted: seq<nat>)
      requires Valid() && |replies| == |images|
      modifies this
      ensures Valid()
      ensures images == old(images) && !isProcessing
      ensures submitted == images[..Submitted(replies)]
      ensures emitted == Emitted(replies)
      ensures processingProgress == emitted[|emitted| - 1]
      ensures RunOf(images, replies).Done? ==>
        processedImages == RunOf(images, replies).processed && error == None
      ensures RunOf(images, replies).Aborted? ==>
        processedImages == old(processedImages) && error == Some(Message(RunOf(images, replies).error))
    {
      isProcessing := true;
      error := None;
      processingProgress := 0;
      emitted := [0];
      submitted := [];
      var processed: seq<Processed> := [];
      var n := |images|;
      for i := 0 to n
        invariant images == old(images) && processedImages == old(processedImages)
        invariant isProcessing && error == None
        invariant submitted == images[..i]
        invariant forall j :: 0 <= j < i ==> replies[j].Generated?
        invariant |processed| == i
        invariant forall j :: 0 <= j < i ==> processed[j] == Entry(images[j], replies[j])
        invariant emitted == [0] + ProgressAfter(i, n)
        invariant processingProgress == emitted[|emitted| - 1] <= 100
      {
        submitted := submitted + [images[i]];
        assert submitted == images[..i + 1];
        var reply := replies[i];
        if reply.Failed? {
          assert FirstFailure(replies) == i;
          error := Some(Message(ProcessingError(i + 1, reply.cause)));
          isProcessing := false;
          return;
        }
        processed := processed + [Entry(images[i], reply)];
        RoundedPercentAtMost100(i + 1, n);
        processingProgress := RoundedPercent(i + 1, n);
        emitted := emitted + [processingProgress];
        assert ProgressAfter(i + 1, n) == ProgressAfter(i, n) + [RoundedPercent(i + 1, n)];
      }
      assert FirstFailure(replies) == n;
      assert processed == RunOf(images, replies).processed;
      assert IdSet(processed, ProcessedId) <= IdSet(images, SourceId) by {
        forall x | x in processed ensures ProcessedId(x) in IdSet(images, SourceId) {
          var j :| 0 <= j < |processed| && processed[j] == x;
          assert images[j] in images;
        }
      }
      processedImages := processed;
      isProcessing := false;
      processingProgress := 100;
      emitted := emitted + [100];
    }
  }
}

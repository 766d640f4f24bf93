# Colouring-book generator: a Dafny model of its core

The application is one React component. The user uploads up to ten photos. A
generation service turns each photo into a colouring page, one photo at a
time. The finished pages are then exported as an A4 PDF with one page per
image. The model covers the four pieces of the component that hold logic:

- the upload cap;
- removal of a photo by id;
- the batch conversion run, with its progress values and its fail-fast error;
- the PDF page geometry and page loop.

The browser, the network and the PDF library are replaced by plain inputs and
outputs.

Modules:

- `Items` (`items.dfy`): the two record shapes the component stores, and the
  functions for the cap and the by-id filter.
  - `SourceItem` is `{id, original, name}`.
  - `Processed` is `{id, data, name}`.
  - `AcceptBatch` is the cap; `Without` is the by-id filter.
- `Conversion` (`conversion.dfy`): what a conversion run should do, as pure functions.
  - The service's answers are an input sequence of `Reply` values: `Generated(url)`,
    or `Failed(StatusNotOk | Threw(message))`.
  - `RunOf` gives the outcome of a run, `Submitted` how many photos were posted,
    and `Emitted` every value passed to the progress setter.
  - `RoundedPercent` is `Math.round`. `Message` is the displayed error text, and
    `ReadPosition` reads the failing position back out of that text.
- `Layout` (`layout.dfy`): the A4 geometry in exact reals (`Fit`, `Place`).
  - The PDF writer is represented by the calls made to it (`AddPage`,
    `AddImage`). `Pages` says what those calls build.
  - `Compose` is the page loop of the export.
- `ColoringBook` (`app.dfy`): class `App`. Its fields are the component's hook
  state: `images`, `processedImages`, `isProcessing`, `processingProgress` and `error`.
  - Its methods are the upload handler, the remove button and the conversion run.
  - Each method is proved against the functions above.
  - Each method keeps `Valid()`: at most ten photos, progress at most 100, and
    every converted page belongs to a photo still on the list.
  - The last part of `Valid()` depends on no handler running during a
    conversion run. In the app the remove button stays active while a run is
    busy (App.jsx:204-209). A photo removed mid-run gets its page back when
    the run publishes its result (App.jsx:83), because that result was built
    from the list the run started with.

On these points the model follows what the code does:

- Exporting an empty list does not raise an error. The code returns without
  doing anything (App.jsx:89), so `Compose` returns `None`.
- When a run fails, `processedImages` is not cleared. It keeps whatever it
  held before the run (App.jsx:75-79).
- The error is a display string, `"Fout bij het verwerken van afbeelding <k>: <cause>"`,
  not a structured value. The model stores that string and proves that the
  position `k` can be read back out of it.
- Each image is centred on the full sheet, as the code does. Because the
  margin is the same on every side, that is also the centre of the printable
  box. `Place` proves the centring, and proves that the image stays inside
  the margins.

## Model

| member | source | states |
|---|---|---|
| Items.AcceptBatch | App.jsx:14-31 | a batch is refused whole exactly when the current count plus the batch size is over 10; an accepted batch is appended after the existing photos, in order, and leaves at most 10 |
| Items.Without | App.jsx:34-37 | the filtered list holds no entry with the removed id, keeps every entry with another id, and adds nothing |
| Items.WithoutAppend | App.jsx:34-37 | filtering a concatenation is the concatenation of the filtered parts, so the remaining entries keep their relative order |
| Items.WithoutAbsent | App.jsx:34-37 | removing an id that is not present leaves the list unchanged |
| Items.WithoutTwice | App.jsx:34-37 | removing the same id twice is the same as removing it once |
| Items.WithoutIdSet | App.jsx:34-37 | the set of ids after removal is exactly the old set minus the removed id |
| Conversion.FirstFailure | App.jsx:45-80 | the index at which the loop stops: every earlier reply succeeded, and the reply at that index failed unless it is the end of the list |
| Conversion.RunOf | App.jsx:45-83 | a run publishes pages exactly when every reply succeeded; then entry k carries photo k's id and name and reply k's URL, one entry per photo; otherwise the error names the 1-based position of the first failure, and all earlier replies succeeded |
| Conversion.Entry | App.jsx:67-71 | definition without an ensures: the entry pushed for a converted photo, with the photo's id and name and the reply's object URL |
| Conversion.Submitted | App.jsx:45-58 | definition without an ensures: the number of POSTs a run makes, all photos up to and including the first failing one |
| Conversion.FailFast | App.jsx:45-79 | a failed run posts photos up to and including the failing one and none after it; a full run posts every photo |
| Conversion.RoundedPercent | App.jsx:73 | the value is Math.round of done/total*100 for non-negative operands: the integer p with p <= percentage + 1/2 < p + 1 |
| Conversion.RoundedPercentAtMost100 | App.jsx:73 | progress after at most all photos is at most 100 |
| Conversion.RoundedPercentFull | App.jsx:73 | progress after the last photo is exactly 100 |
| Conversion.RoundedPercentMonotone | App.jsx:73 | progress does not decrease as more photos complete |
| Conversion.RoundedPercentBelowFull | App.jsx:73 | with fewer than 200 photos, progress before the last photo is below 100 |
| Conversion.ProgressAfter | App.jsx:45-73 | the value set after photo j is the rounded percentage of j+1 over the total, for each completed photo |
| Conversion.Emitted | App.jsx:42-85 | definition without an ensures: every value passed to setProcessingProgress, in order: 0, one per converted photo, then 100 when every photo converted |
| Conversion.ProgressInRange | App.jsx:42-85 | every progress value a run emits lies in 0..100 |
| Conversion.ProgressNeverDecreases | App.jsx:42-85 | the progress values a run emits never decrease |
| Conversion.ProgressEnds | App.jsx:42-85 | a run starts at 0; a run where every photo completes ends at 100; a failed run over at most 10 photos never emits 100 |
| Conversion.EmptyRun | App.jsx:43-85 | an empty run posts nothing, publishes an empty list, and emits 0 then 100 |
| Conversion.ThirdOfThreeRejected | App.jsx:45-79 | three photos with the third one rejected: error at position 3, three photos posted, progress 0, 33, 67 |
| Conversion.Decimal | App.jsx:58 | the template rendering of a number is a non-empty string of decimal digits |
| Conversion.CauseText | App.jsx:58 | definition without an ensures: err.message of a failure, which is "Fout bij afbeelding <k>" for a status that is not ok, or the thrown message |
| Conversion.Message | App.jsx:77 | definition without an ensures: the error text stored and shown, the fixed prefix, the position, ": " and the cause text |
| Conversion.DecimalRoundTrip | App.jsx:77 | reading back the rendered digits gives the original number |
| Conversion.LeadingDigitsOf | App.jsx:77 | the digit run at the front of digits followed by a non-digit is exactly those digits |
| Conversion.MessageNamesPosition | App.jsx:77 | the displayed error text names the 1-based position of the failing photo |
| Layout.Fit | App.jsx:120-134 | the fitted size is positive and within 190 by 277, has the image's aspect ratio, is 190 wide when the image is wider than 190:277, and is 277 high otherwise |
| Layout.RatioCompare | App.jsx:123-128 | the ratio test of the source is the cross-product comparison w*277 > h*190 |
| Layout.FitIsLargest | App.jsx:120-134 | no uniform scaling of the image that fits inside 190 by 277 is larger than the fitted size |
| Layout.Place | App.jsx:136-137 | the image has its fitted size and is centred on the 210 by 297 sheet; it lies inside the 10 mm margins on every side |
| Layout.PlaceWideExample | App.jsx:120-137 | a 1000 by 500 image is drawn 190 by 95 at (10, 101) |
| Layout.Pages | App.jsx:100-113 | a new document has a first page, and the pages follow the calls made to the writer |
| Layout.PageCount | App.jsx:110-113 | the document has the first page plus one page per AddPage call; Compose uses it to show that AddPage is called once for every image after the first |
| Layout.Drawings | App.jsx:136-142 | definition without an ensures: each converted page's image drawn at its computed placement, in list order |
| Layout.OnePerPage | App.jsx:110-113 | one page per image, in list order, each page holding only its own image |
| Layout.PageStepKeepsOnePerPage | App.jsx:110-113 | one turn of the page loop (AddPage unless it is the first image, then AddImage) puts the next image on a page of its own |
| Layout.Compose | App.jsx:88-146 | no document for an empty list; otherwise a document saved as mijn-kleurboek.pdf whose pages hold exactly one image each, in list order, at its computed placement, with one AddPage call per image after the first |
| Layout.PageStep | App.jsx:111-113 | definition without an ensures: the calls one loop turn makes, AddPage unless it is the first image, then AddImage (line 139) |
| ColoringBook.App.constructor | App.jsx:5-9 | the component starts with no photos, no pages, not processing, progress 0 and no error |
| ColoringBook.App.Upload | App.jsx:14-31 | an accepted batch is appended to the photos and a refused one changes nothing; nothing else changes; the 10-photo limit is kept |
| ColoringBook.App.RemoveImage | App.jsx:34-37 | removes the id from both the photos and the converted pages, as Without does; nothing else changes |
| ColoringBook.App.ProcessImages | App.jsx:39-86 | posts the photos as Submitted says; emits the progress values of Emitted; ends not processing, showing the last emitted value; on success publishes RunOf's pages with no error; on failure keeps the previous pages and displays Message of the error |

## Left out

- Network I/O is not modelled: the POST to the generation service, `response.json()`, the fetch of `data.imageUrl`, `blob()` and `URL.createObjectURL`. Each photo's outcome is an input `Reply`. A photo fails when the POST's status is not ok (`StatusNotOk`), or when anything else in the try block throws (`Threw`): a network error, a body that is not JSON, a JSON `null` body (reading `data.imageUrl` then throws), or an `imageUrl` that `fetch` refuses. The second fetch's status is never checked (App.jsx:63-65). So a missing `imageUrl`, or an error status on that fetch, still gives a `Generated` reply, whose URL holds whatever came back.
- The file reader and id generation are not modelled. The upload handler receives the batch already read, in the order the reader's callbacks fire; the code does not guarantee that order. Ids (`Date.now() + Math.random()`) are given values.
- Loading jsPDF through a script tag is not modelled, and neither are `addImage`'s raster handling or `save`'s byte stream. The document is the list of calls made to the writer, plus the file name.
- Image decoding is not modelled. `Compose` takes each image's natural size as an input and requires it to be positive. If decoding fails, the source's promise never resolves and the export hangs; the model has no such case.
- Floating point is not modelled. The layout uses exact reals. `Math.round` of the progress percentage is exact integer arithmetic: `(200*done + total) / (2*total)`, rounded down.
- React is not modelled: hooks, rendering of lines 149-266, `alert` and `console.error`. Hook state is plain fields. Each `await` is a sequential step: nothing else runs during a conversion run or an export.
- Upload: the cap check reads the photo count from the last render, and reads still in progress are not counted. The model checks against the current list.
- ProcessImages: the disabled button is what stops a second run from starting while one is busy. The method models one complete run and does not check `isProcessing` itself.

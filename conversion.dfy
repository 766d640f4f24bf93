/** What one run of the batch conversion should do, as values: the replies of
    the generation service are an input, and the run's outcome, the items it
    submits, the progress values it shows and the error text it displays are
    functions of the photos and those replies. */
module Conversion {
  import opened Items

  /** Why an item failed: the service answered the POST with a status that is
      not ok, or anything else in the conversion step threw with the given
      message (a network error, a body that is not JSON, a JSON `null` body
      whose `imageUrl` cannot be read, or an `imageUrl` that fetch refuses). */
  datatype Cause = StatusNotOk | Threw(message: string)

  /** The service's answer for one submitted photo: the object URL made from
      whatever the second fetch returned, or a failure. The second fetch's
      status is never checked, so a missing `imageUrl` or an error page there
      still counts as `Generated`. */
  datatype Reply = Generated(artifact: Url) | Failed(cause: Cause)

  /** The failure of the item at the 1-based `position`. */
  datatype ProcessingError = ProcessingError(position: nat, cause: Cause)

  /** A run either publishes all its pages or stops at the first failure. */
  datatype RunResult = Done(processed: seq<Processed>) | Aborted(error: ProcessingError)

  predicate AllGenerated(replies: seq<Reply>)
  {
    forall j :: 0 <= j < |replies| ==> replies[j].Generated?
  }

  /** The index of the first failing reply, or `|replies|` when none fails. */
  function FirstFailure(replies: seq<Reply>): (k: nat)
    ensures k <= |replies|
    ensures forall j :: 0 <= j < k ==> replies[j].Generated?
    ensures k < |replies| ==> replies[k].Failed?
  {
    if replies == [] then 0
    else if replies[0].Failed? then 0
    else 1 + FirstFailure(replies[1..])
  }

  /** The entry pushed for a photo whose conversion succeeded. */
  function Entry(item: SourceItem, reply: Reply): Processed
    requires reply.Generated?
  {
    Processed(item.id, reply.artifact, item.name)
  }

  /** The outcome of a run over `images` when the service answers `replies`. */
  function RunOf(images: seq<SourceItem>, replies: seq<Reply>): (r: RunResult)
    requires |replies| == |images|
    ensures r.Done? <==> AllGenerated(replies)
    ensures r.Done? ==> |r.processed| == |images|
    ensures r.Done? ==> forall j :: 0 <= j < |images| ==>
      && r.processed[j].id == images[j].id
      && r.processed[j].name == images[j].name
      && r.processed[j].data == replies[j].artifact
    ensures r.Aborted? ==> 1 <= r.error.position <= |images|
    ensures r.Aborted? ==> replies[r.error.position - 1] == Failed(r.error.cause)
    ensures r.Aborted? ==> forall j :: 0 <= j < r.error.position - 1 ==> replies[j].Generated?
  {
    var k := FirstFailure(replies);
    if k == |replies| then
      Done(seq(|images|, j requires 0 <= j < |images| => Entry(images[j], replies[j])))
    else
      Aborted(ProcessingError(k + 1, replies[k].cause))
  }

  /** How many photos a run submits to the service. */
  function Submitted(replies: seq<Reply>): nat
  {
    var k := FirstFailure(replies);
    if k == |replies| then k else k + 1
  }

  /** No photo after the failing one is submitted; a full run submits all. */
  lemma FailFast(images: seq<SourceItem>, replies: seq<Reply>)
    requires |replies| == |images|
    ensures RunOf(images, replies).Aborted? ==> Submitted(replies) == RunOf(images, replies).error.position
    ensures RunOf(images, replies).Done? ==> Submitted(replies) == |images|
  {
    var k := FirstFailure(replies);
    if k < |replies| {
      assert RunOf(images, replies).error.position == k + 1;
    }
  }

  /** `Math.round((done / total) * 100)` for non-negative values: the floor of
      the exact percentage plus one half. */
  function RoundedPercent(done: nat, total: nat): (p: nat)
    requires 0 < total
    ensures 2 * total * p <= 200 * done + total < 2 * total * (p + 1)
  {
    var q := (200 * done + total) / (2 * total);
    assert (200 * done + total) == (2 * total) * q + (200 * done + total) % (2 * total);
    q
  }

  lemma RoundedPercentAtMost100(done: nat, total: nat)
    requires 0 < total && done <= total
    ensures RoundedPercent(done, total) <= 100
  {
    var p := RoundedPercent(done, total);
    assert 2 * total * p < 2 * total * 101;
    MulCancel(2 * total, p, 101);
  }

  lemma RoundedPercentFull(total: nat)
    requires 0 < total
    ensures RoundedPercent(total, total) == 100
  {
    var p := RoundedPercent(total, total);
    assert 2 * total * 100 < 2 * total * (p + 1);
    MulCancel(2 * total, 100, p + 1);
    RoundedPercentAtMost100(total, total);
  }

  lemma RoundedPercentMonotone(a: nat, b: nat, total: nat)
    requires 0 < total && a <= b
    ensures RoundedPercent(a, total) <= RoundedPercent(b, total)
  {
    var p, q := RoundedPercent(a, total), RoundedPercent(b, total);
    assert 2 * total * p < 2 * total * (q + 1);
    MulCancel(2 * total, p, q + 1);
  }

  /** With fewer than 200 photos no item before the last one rounds up to 100. */
  lemma RoundedPercentBelowFull(done: nat, total: nat)
    requires done < total < 200
    ensures RoundedPercent(done, total) < 100
  {
    var p := RoundedPercent(done, total);
    assert 2 * total * p < 2 * total * 100;
    MulCancel(2 * total, p, 100);
  }

  /** Dividing both sides of a strict inequality by a positive factor. */
  lemma MulCancel(c: nat, a: nat, b: nat)
    requires c * a < c * b
    ensures a < b
  {
    if a >= b {
      MulMonotone(c, b, a);
    }
  }

  lemma MulMonotone(c: nat, a: nat, b: nat)
    requires a <= b
    ensures c * a <= c * b
  {
  }

  /** The progress value shown after each of the first `count` photos. */
  function ProgressAfter(count: nat, total: nat): (s: seq<nat>)
    requires count <= total
    ensures |s| == count
    ensures forall j :: 0 <= j < count ==> s[j] == RoundedPercent(j + 1, total)
  {
    if count == 0 then [] else ProgressAfter(count - 1, total) + [RoundedPercent(count, total)]
  }

  /** Every value a run passes to the progress setter, in order: 0 at the
      start, one value after each converted photo, and 100 on completion. */
  function Emitted(replies: seq<Reply>): seq<nat>
  {
    var k := FirstFailure(replies);
    [0] + ProgressAfter(k, |replies|) + (if k == |replies| then [100] else [])
  }

  lemma ProgressInRange(replies: seq<Reply>)
    ensures forall j :: 0 <= j < |Emitted(replies)| ==> Emitted(replies)[j] <= 100
  {
    var k := FirstFailure(replies);
    var e := Emitted(replies);
    forall j | 0 <= j < |e| ensures e[j] <= 100 {
      if 1 <= j <= k {
        RoundedPercentAtMost100(j, |replies|);
      }
    }
  }

  lemma ProgressNeverDecreases(replies: seq<Reply>)
    ensures forall a, b :: 0 <= a <= b < |Emitted(replies)| ==> Emitted(replies)[a] <= Emitted(replies)[b]
  {
    var k := FirstFailure(replies);
    var e := Emitted(replies);
    var n := |replies|;
    forall a, b | 0 <= a <= b < |e| ensures e[a] <= e[b] {
      if 1 <= a && b <= k {
        RoundedPercentMonotone(a, b, n);
      } else if 1 <= a <= k {
        RoundedPercentAtMost100(a, n);
      }
    }
  }

  /** A run starts at 0; it ends at 100 exactly when every photo converted,
      and a run that stops early never shows 100 (with at most ten photos). */
  lemma ProgressEnds(images: seq<SourceItem>, replies: seq<Reply>)
    requires |replies| == |images| <= MaxImages
    ensures Emitted(replies)[0] == 0
    ensures RunOf(images, replies).Done? ==> Emitted(replies)[|Emitted(replies)| - 1] == 100
    ensures RunOf(images, replies).Aborted? ==> 100 !in Emitted(replies)
  {
    var k := FirstFailure(replies);
    var e := Emitted(replies);
    if k < |replies| {
      forall j | 0 <= j < |e| ensures e[j] != 100 {
        if 1 <= j {
          RoundedPercentBelowFull(j, |replies|);
        }
      }
    }
  }

  /** A run over no photos: nothing submitted, an empty list published, 0 then 100. */
  lemma EmptyRun()
    ensures RunOf([], []) == Done([])
    ensures Submitted([]) == 0
    ensures Emitted([]) == [0, 100]
  {
  }

  /** Three photos, the third rejected: progress 0, 33, 67 and no 100, error at 3. */
  lemma ThirdOfThreeRejected(images: seq<SourceItem>, u: Url, v: Url)
    requires |images| == 3
    ensures RunOf(images, [Generated(u), Generated(v), Failed(StatusNotOk)]) == Aborted(ProcessingError(3, StatusNotOk))
    ensures Submitted([Generated(u), Generated(v), Failed(StatusNotOk)]) == 3
    ensures Emitted([Generated(u), Generated(v), Failed(StatusNotOk)]) == [0, 33, 67]
  {
    var replies := [Generated(u), Generated(v), Failed(StatusNotOk)];
    assert FirstFailure(replies[2..]) == 0;
    assert FirstFailure(replies[1..]) == 1 by { assert replies[1..][1..] == replies[2..]; }
    assert FirstFailure(replies) == 2;
    assert ProgressAfter(2, 3) == [33, 67];
  }

  /** `${n}`: the decimal digits of a natural number. */
  function Decimal(n: nat): (s: string)
    ensures |s| >= 1 && AllDigits(s)
  {
    if n < 10 then [DigitChar(n)] else Decimal(n / 10) + [DigitChar(n % 10)]
  }

  function DigitChar(d: nat): (c: char)
    requires d < 10
    ensures IsDigit(c) && DigitValue(c) == d
  {
    (48 + d) as char
  }

  predicate IsDigit(c: char) { '0' <= c <= '9' }

  predicate AllDigits(s: string) { forall j :: 0 <= j < |s| ==> IsDigit(s[j]) }

  function DigitValue(c: char): nat
    requires IsDigit(c)
  {
    c as int - 48
  }

  /** Reads a string of decimal digits as a number. */
  function ParseDecimal(s: string): nat
    requires AllDigits(s)
  {
    if s == [] then 0 else 10 * ParseDecimal(s[..|s| - 1]) + DigitValue(s[|s| - 1])
  }

  lemma {:induction false} DecimalRoundTrip(n: nat)
    ensures ParseDecimal(Decimal(n)) == n
  {
    if n >= 10 {
      DecimalRoundTrip(n / 10);
      var s := Decimal(n);
      assert s[..|s| - 1] == Decimal(n / 10);
    }
  }

  const ErrorPrefix: string := "Fout bij het verwerken van afbeelding "

  /** `err.message` of the failure: the text thrown for a status that is not
      ok names the 1-based position too. */
  function CauseText(cause: Cause, position: nat): string
  {
    match cause
    case StatusNotOk => "Fout bij afbeelding " + Decimal(position)
    case Threw(message) => message
  }

  /** The text stored in the error slot and shown to the user. */
  function Message(e: ProcessingError): string
  {
    ErrorPrefix + Decimal(e.position) + ": " + CauseText(e.cause, e.position)
  }

  /** The longest run of digits at the front of `s`. */
  function LeadingDigits(s: string): (d: string)
    ensures AllDigits(d) && |d| <= |s| && d == s[..|d|]
  {
    if s == [] || !IsDigit(s[0]) then [] else [s[0]] + LeadingDigits(s[1..])
  }

  /** The position a reader of the message finds after the fixed prefix. */
  function ReadPosition(message: string): Option<nat>
  {
    if |message| >= |ErrorPrefix| && message[..|ErrorPrefix|] == ErrorPrefix then
      var d := LeadingDigits(message[|ErrorPrefix|..]);
      if d == [] then None else Some(ParseDecimal(d))
    else None
  }

  lemma {:induction false} LeadingDigitsOf(d: string, rest: string)
    requires AllDigits(d)
    requires rest != [] && !IsDigit(rest[0])
    ensures LeadingDigits(d + rest) == d
  {
    if d == [] {
      assert d + rest == rest;
    } else {
      assert (d + rest)[1..] == d[1..] + rest;
      LeadingDigitsOf(d[1..], rest);
    }
  }

  /** The displayed error names the failing photo's 1-based position. */
  lemma MessageNamesPosition(e: ProcessingError)
    ensures ReadPosition(Message(e)) == Some(e.position)
  {
    var m := Message(e);
    var digits := Decimal(e.position);
    var rest := ": " + CauseText(e.cause, e.position);
    assert m == ErrorPrefix + (digits + rest);
    assert m[..|ErrorPrefix|] == ErrorPrefix;
    assert m[|ErrorPrefix|..] == digits + rest;
    LeadingDigitsOf(digits, rest);
    DecimalRoundTrip(e.position);
  }
}

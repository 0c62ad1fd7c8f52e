/** The chunked video downloader of pkg/msgconv/media.go, against a server that holds the file. */
module ChunkedDownload {
  import opened Common

  const CHUNK := 0x10_0000

  /** Positions as in a Range header: the first byte and the last. */
  datatype Range = Range(first: int, last: int)

  datatype Error = NoError | EOF | Failed

  /** How an inner read ends: EOF with the last data, EOF in a read of its own, no EOF yet, or some other error. */
  datatype Ending = WithData | OnItsOwn | NotYet | Broken

  /** What the network does during one call: whether a new request is answered, and how much the inner read returns. */
  datatype Weather = Weather(answered: bool, n: nat, ending: Ending)

  /** The next offset to ask for, and what is left of the body of the request in flight. */
  datatype Download = Download(offset: int, inFlight: Option<seq<byte>>)

  const START := Download(0, None)

  /** The end is brought back only when it is beyond the total size, so a range can end one byte past the last. */
  function End(total: int, offset: int): int {
    var end := offset + CHUNK - 1;
    if end > total then total - 1 else end
  }

  /**
   Section 14.1.2 of RFC 9110: a last position beyond the end is clamped, a range whose last position comes before its
   first is ignored, and a range that starts beyond the end cannot be satisfied.
   */
  function Serve(file: seq<byte>, r: Range): Option<seq<byte>>
    requires 0 <= r.first
  {
    if r.last < r.first then Some(file)
    else if r.first >= |file| then None
    else Some(file[r.first..if r.last < |file| then r.last + 1 else |file|])
  }

  datatype Step = Step(next: Download, data: seq<byte>, error: Error, requested: Option<Range>)

  /** How many bytes an inner read returns, and whether it reports EOF. */
  function Count(body: seq<byte>, w: Weather): (n: nat)
    ensures n <= |body|
  {
    if w.n <= |body| then w.n else |body|
  }

  predicate AtEof(body: seq<byte>, w: Weather) {
    || (w.ending.WithData? && Count(body, w) == |body|)
    || (w.ending.OnItsOwn? && body == [])
  }

  function ReadBody(total: int, offset: int, body: seq<byte>, w: Weather, requested: Option<Range>): Step {
    var data := body[..Count(body, w)];
    if AtEof(body, w) then Step(Download(offset, None), data, if offset < total then NoError else EOF, requested)
    else Step(Download(offset, Some(body[|data|..])), data, if w.ending.Broken? then Failed else NoError, requested)
  }

  function ReadStep(file: seq<byte>, d: Download, w: Weather): (step: Step)
    requires 0 <= d.offset
    ensures 0 <= step.next.offset
  {
    if d.inFlight.Some? then ReadBody(|file|, d.offset, d.inFlight.value, w, None)
    else
      var r := Range(d.offset, End(|file|, d.offset));
      var body := Serve(file, r);
      if !w.answered || body.None? then Step(d, [], Failed, None)
      else ReadBody(|file|, r.last + 1, body.value, w, Some(r))
  }

  class ChunkedVideoDownloader {
    ghost const file: seq<byte>
    const totalSize: int
    var offset: int
    var inFlightRequest: Option<seq<byte>>

    ghost predicate Valid()
      reads this
    {
      0 <= offset && totalSize == |file|
    }

    ghost function State(): Download
      reads this
    {
      Download(offset, inFlightRequest)
    }

    constructor (file: seq<byte>)
      ensures Valid() && this.file == file && State() == START
    {
      this.file, totalSize := file, |file|;
      offset, inFlightRequest := 0, None;
    }

    /** The body the server answers with is given by the caller; what a failed request leaves does not matter. */
    method Read(p: array<byte>, served: Option<seq<byte>>, w: Weather) returns (n: nat, error: Error)
      requires Valid() && w.n <= p.Length
      requires inFlightRequest.None? && w.answered ==> served == Serve(file, Range(offset, End(totalSize, offset)))
      modifies this, p
      ensures var step := ReadStep(file, old(State()), w);
        Valid() && State() == step.next && error == step.error
        && n == |step.data| <= p.Length && p[..n] == step.data && p[n..] == old(p[..])[n..]
    {
      n := 0;
      if inFlightRequest.None? {
        var end := offset + CHUNK - 1;
        if end > totalSize {
          end := totalSize - 1;
        }
        if !w.answered || served.None? {
          error := Failed;
          return;
        }
        inFlightRequest := served;
        offset := end + 1;
      }
      var body := inFlightRequest.value;
      n := Count(body, w);
      forall k | 0 <= k < n {
        p[k] := body[k];
      }
      inFlightRequest := Some(body[n..]);
      error := if w.ending.Broken? then Failed else NoError;
      if AtEof(body, w) {
        inFlightRequest := None;
        error := if offset < totalSize then NoError else EOF;
      }
    }
  }

  /** Calling Read until it reports EOF, through errors if need be: the data and the requests that were served. */
  datatype Reading = Reading(next: Download, data: seq<byte>, requests: seq<Range>, finished: bool)

  function Listed(r: Option<Range>): seq<Range> {
    match r
    case None => []
    case Some(range) => [range]
  }

  function ReadAll(file: seq<byte>, d: Download, ws: seq<Weather>): Reading
    requires 0 <= d.offset
    decreases |ws|
  {
    if ws == [] then Reading(d, [], [], false)
    else
      var step := ReadStep(file, d, ws[0]);
      if step.error.EOF? then Reading(step.next, step.data, Listed(step.requested), true)
      else
        var rest := ReadAll(file, step.next, ws[1..]);
        Reading(rest.next, step.data + rest.data, Listed(step.requested) + rest.requests, rest.finished)
  }

  // ----- what reading to the end gives -----

  /** The number of chunks: the size divided by the chunk size, rounded up. */
  function Chunks(total: nat): nat {
    (total + CHUNK - 1) / CHUNK
  }

  function Request(total: nat, k: nat): Range {
    Range(k * CHUNK, End(total, k * CHUNK))
  }

  /** The requests from the k-th on. */
  function Requests(total: nat, k: nat): seq<Range>
    decreases Chunks(total) - k
  {
    if k >= Chunks(total) then [] else [Request(total, k)] + Requests(total, k + 1)
  }

  /** After k requests, with the bytes still to be delivered. */
  ghost predicate Inv(file: seq<byte>, d: Download, k: nat, left: seq<byte>) {
    && k <= Chunks(|file|)
    && (if k < Chunks(|file|) then d.offset == k * CHUNK else d.offset >= |file|)
    && 0 <= d.offset
    && left == (if d.inFlight.Some? then d.inFlight.value else []) + file[if d.offset < |file| then d.offset else |file|..]
    && (d.inFlight.None? ==> k < Chunks(|file|))
  }

  lemma {:induction false} ChunkStarts(total: nat, k: nat)
    ensures k < Chunks(total) <==> k * CHUNK < total
    ensures k + 1 < Chunks(total) ==> End(total, k * CHUNK) + 1 == (k + 1) * CHUNK
    ensures k + 1 == Chunks(total) ==> End(total, k * CHUNK) + 1 >= total && End(total, k * CHUNK) >= k * CHUNK
  {
  }

  /** An answered request puts its chunk in flight; nothing is lost between it and what is still to be requested. */
  lemma {:induction false} RequestKeepsInv(file: seq<byte>, d: Download, k: nat, left: seq<byte>)
    requires Inv(file, d, k, left) && d.inFlight.None?
    ensures var r := Request(|file|, k);
      && r == Range(d.offset, End(|file|, d.offset))
      && Serve(file, r).Some? && Inv(file, Download(r.last + 1, Serve(file, r)), k + 1, left)
      && Requests(|file|, k) == [r] + Requests(|file|, k + 1)
  {
    ChunkStarts(|file|, k);
    ChunkStarts(|file|, k + 1);
    var r := Request(|file|, k);
    var cut := if r.last < |file| then r.last + 1 else |file|;
    assert file[r.first..cut] + file[cut..] == file[r.first..];
  }

  lemma {:induction false} BodyKeepsInv(file: seq<byte>, offset: int, body: seq<byte>, k: nat, left: seq<byte>,
      w: Weather, r: Option<Range>)
    requires Inv(file, Download(offset, Some(body)), k, left)
    ensures var step := ReadBody(|file|, offset, body, w, r);
      && step.data <= left && left == step.data + left[|step.data|..] && step.requested == r
      && (if step.error.EOF? then left[|step.data|..] == [] && k == Chunks(|file|)
          else Inv(file, step.next, k, left[|step.data|..]))
  {
    BodyKeeps(body, file[if offset < |file| then offset else |file|..], w);
    ChunkStarts(|file|, k);
  }

  lemma {:induction false} BodyKeeps(body: seq<byte>, after: seq<byte>, w: Weather)
    ensures body + after == body[..Count(body, w)] + (body[Count(body, w)..] + after)
    ensures (body + after)[Count(body, w)..] == body[Count(body, w)..] + after
    ensures AtEof(body, w) ==> body[Count(body, w)..] + after == after
  {
  }

  /** Data, requests and what is left of both, before and after one more call; a reported EOF leaves nothing. */
  ghost predicate Kept(file: seq<byte>, k: nat, left: seq<byte>, step: Step, k': nat, left': seq<byte>) {
    && left == step.data + left'
    && Requests(|file|, k) == Listed(step.requested) + Requests(|file|, k')
    && (if step.error.EOF? then left' == [] && k' == Chunks(|file|) else Inv(file, step.next, k', left'))
  }

  lemma {:induction false} InFlightReadKeepsInv(file: seq<byte>, d: Download, k: nat, left: seq<byte>, w: Weather)
    requires Inv(file, d, k, left) && d.inFlight.Some?
    ensures var step := ReadStep(file, d, w);
      step.data <= left && Kept(file, k, left, step, k, left[|step.data|..])
  {
    BodyKeepsInv(file, d.offset, d.inFlight.value, k, left, w, None);
    assert [] + Requests(|file|, k) == Requests(|file|, k);
  }

  lemma {:induction false} FreshReadKeepsInv(file: seq<byte>, d: Download, k: nat, left: seq<byte>, w: Weather)
    requires Inv(file, d, k, left) && d.inFlight.None? && w.answered
    ensures var step := ReadStep(file, d, w);
      step.data <= left && Kept(file, k, left, step, k + 1, left[|step.data|..])
  {
    RequestKeepsInv(file, d, k, left);
    var r := Request(|file|, k);
    BodyKeepsInv(file, r.last + 1, Serve(file, r).value, k + 1, left, w, Some(r));
  }

  lemma {:induction false} ReadKeepsInv(file: seq<byte>, d: Download, k: nat, left: seq<byte>, w: Weather)
    returns (k': nat, left': seq<byte>)
    requires Inv(file, d, k, left)
    ensures Kept(file, k, left, ReadStep(file, d, w), k', left')
  {
    var step := ReadStep(file, d, w);
    if d.inFlight.Some? {
      InFlightReadKeepsInv(file, d, k, left, w);
      k', left' := k, left[|step.data|..];
    } else if w.answered {
      FreshReadKeepsInv(file, d, k, left, w);
      k', left' := k + 1, left[|step.data|..];
    } else {
      k', left' := k, left;
    }
  }

  lemma {:induction false} ReadAllFrom(file: seq<byte>, d: Download, k: nat, left: seq<byte>, ws: seq<Weather>)
    requires Inv(file, d, k, left)
    ensures var all := ReadAll(file, d, ws);
      && all.data <= left && all.requests <= Requests(|file|, k)
      && (all.finished ==> all.data == left && all.requests == Requests(|file|, k))
    decreases |ws|
  {
    if ws != [] {
      var step := ReadStep(file, d, ws[0]);
      var k', left' := ReadKeepsInv(file, d, k, left, ws[0]);
      if !step.error.EOF? {
        ReadAllFrom(file, step.next, k', left', ws[1..]);
      }
    }
  }

  /**
   However the network splits the data and whatever requests have to be repeated, what has been read is a prefix of the
   file, and reading to EOF gives the whole file with one request for each chunk.
   */
  lemma {:induction false} ReadingGivesTheFile(file: seq<byte>, ws: seq<Weather>)
    requires |file| > 0
    ensures var all := ReadAll(file, START, ws);
      && all.data <= file && all.requests <= Requests(|file|, 0)
      && (all.finished ==> all.data == file && all.requests == Requests(|file|, 0))
  {
    ReadAllFrom(file, START, 0, file, ws);
  }

  /** There are ceil(total / CHUNK) requests, each starts where the one before ended, and together they cover the file. */
  lemma {:induction false} RequestsAreConsecutive(total: nat, k: nat)
    requires k < Chunks(total)
    ensures var rs := Requests(total, k);
      && |rs| == Chunks(total) - k
      && rs[0].first == k * CHUNK
      && (forall i :: 0 <= i < |rs| ==> rs[i].first <= rs[i].last)
      && (forall i :: 0 <= i < |rs| - 1 ==> rs[i].last + 1 == rs[i + 1].first && rs[i].last < total)
      && total - 1 <= rs[|rs| - 1].last <= total
    decreases Chunks(total) - k
  {
    ChunkStarts(total, k);
    if k + 1 < Chunks(total) {
      RequestsAreConsecutive(total, k + 1);
      ChunkStarts(total, k + 1);
    } else {
      assert Requests(total, k + 1) == [];
    }
  }

  /** The last request names a byte past the end exactly when the size is one short of a multiple of the chunk size. */
  lemma {:induction false} LastRequestIsPastTheEndExactly(total: nat)
    requires total > 0
    ensures Request(total, Chunks(total) - 1).last == total <==> (total + 1) % CHUNK == 0
  {
    ChunkStarts(total, Chunks(total) - 1);
  }

  // ----- reading does end -----

  /** A call that gets an answer, and bytes or EOF out of it. */
  predicate Productive(w: Weather) {
    w.answered && w.n > 0 && (w.ending.WithData? || w.ending.OnItsOwn?)
  }

  function Work(file: seq<byte>, d: Download, k: nat, left: seq<byte>): int {
    |left| + Chunks(|file|) - k + if d.inFlight.Some? then 1 else 0
  }

  lemma {:induction false} ReadDoesWork(file: seq<byte>, d: Download, k: nat, left: seq<byte>, w: Weather)
    returns (k': nat, left': seq<byte>)
    requires Inv(file, d, k, left) && Productive(w)
    ensures var step := ReadStep(file, d, w);
      step.error.EOF? ||
      (Inv(file, step.next, k', left') && Work(file, step.next, k', left') < Work(file, d, k, left))
  {
    k', left' := ReadKeepsInv(file, d, k, left, w);
    var step := ReadStep(file, d, w);
    if d.inFlight.None? {
      ChunkStarts(|file|, k);
      assert Requests(|file|, k)[0] == Request(|file|, k);
      RequestCount(|file|, k);
      RequestCount(|file|, k');
    } else {
      RequestCount(|file|, k);
      RequestCount(|file|, k');
    }
  }

  lemma {:induction false} RequestCount(total: nat, k: nat)
    ensures |Requests(total, k)| == if k < Chunks(total) then Chunks(total) - k else 0
    decreases Chunks(total) - k
  {
    if k < Chunks(total) {
      RequestCount(total, k + 1);
    }
  }

  lemma {:induction false} ProductiveReadingEnds(file: seq<byte>, d: Download, k: nat, left: seq<byte>, ws: seq<Weather>)
    requires Inv(file, d, k, left) && Work(file, d, k, left) < |ws|
    requires forall i :: 0 <= i < |ws| ==> Productive(ws[i])
    ensures ReadAll(file, d, ws).finished
    decreases |ws|
  {
    var step := ReadStep(file, d, ws[0]);
    if !step.error.EOF? {
      var k', left' := ReadDoesWork(file, d, k, left, ws[0]);
      ProductiveReadingEnds(file, step.next, k', left', ws[1..]);
    }
  }

  /** Productive calls, one more of them than there are bytes and chunks, reach EOF. */
  lemma {:induction false} ReadingEnds(file: seq<byte>, ws: seq<Weather>)
    requires |file| > 0 && |ws| > |file| + Chunks(|file|)
    requires forall i :: 0 <= i < |ws| ==> Productive(ws[i])
    ensures ReadAll(file, START, ws).finished && ReadAll(file, START, ws).data == file
  {
    ProductiveReadingEnds(file, START, 0, file, ws);
    ReadingGivesTheFile(file, ws);
  }
}

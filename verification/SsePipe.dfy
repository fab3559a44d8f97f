/** The writer and the reader together. */
module SsePipe {
  import opened SseFormat
  import opened SseReading
  import opened SseStream
  import opened SseWriting

  /**
   Whatever calls were made on a writer, if none of its writes failed and what it was given is well
   formed, a reader of the response delivers exactly the events written, in order, and ends with the
   last non-empty id written.
   */
  method ReadBack(w: SseWriter, clean: bool) returns (ds: seq<Delivery>, r: SseReader)
    requires w.Valid() && w.whole && AllWellFormed(w.log)
    ensures ds == Intended(w.log, "") && r.lastEventId == IntendedId(w.log, "")
  {
    r := new SseReader(w.sent, clean);
    RoundTrip(w.log, "", clean);
    ds := r.ReadEvents();
  }
}

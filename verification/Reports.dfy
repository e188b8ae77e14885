/**
 Reports that are sent at least once and counted once: a sender keeps the
 report it is waiting on, the network may lose, delay or repeat whatever was
 put on it, and the receiver counts each report id the first time only.
 */
module Reports {
  import opened Options

  datatype Report<B> = Report(id: string, body: B)

  /** `sent` holds every report ever put on the wire, `seen` the ids already counted, `used` the ids ever drawn. */
  datatype Channel<B(==)> = Channel(sent: set<Report<B>>, seen: set<string>, used: set<string>)

  ghost function Draw<B>(c: Channel<B>, id: string): Channel<B> {
    c.(used := c.used + {id})
  }

  ghost function Send<B>(c: Channel<B>, r: Report<B>): Channel<B> {
    c.(sent := c.sent + {r})
  }

  ghost function Count<B>(c: Channel<B>, r: Report<B>): Channel<B> {
    c.(seen := c.seen + {r.id})
  }

  /**
   A report on the wire is the pending one or has been counted already, an id
   names one report, and only drawn ids are on the wire or counted.
   */
  ghost predicate Known<B>(pending: Option<Report<B>>, c: Channel<B>) {
    && (forall r :: r in c.sent ==> r.id in c.used && (pending == Some(r) || r.id in c.seen))
    && (forall r, q :: r in c.sent && q in c.sent && r.id == q.id ==> r == q)
    && (pending.Some? ==> pending.value.id in c.used && (pending.value.id in c.seen ==> pending.value in c.sent))
    && (pending.Some? ==> forall q :: q in c.sent && q.id == pending.value.id ==> q == pending.value)
    && c.seen <= c.used
  }

  ghost predicate InDoubt<B>(pending: Option<Report<B>>, c: Channel<B>) {
    pending.Some? && pending.value.id in c.seen
  }

  lemma NewReport<B>(c: Channel<B>, r: Report<B>)
    requires Known(None, c) && r.id !in c.used
    ensures Known(Some(r), Draw(c, r.id)) && !InDoubt(Some(r), Draw(c, r.id))
  {}

  lemma SendPending<B>(c: Channel<B>, r: Report<B>)
    requires Known(Some(r), c)
    ensures Known(Some(r), Send(c, r))
  {}

  /** The first arrival of a report is always that of the pending one. */
  lemma FirstArrival<B>(pending: Option<Report<B>>, c: Channel<B>, r: Report<B>)
    requires Known(pending, c) && r in c.sent && r.id !in c.seen
    ensures pending == Some(r)
    ensures Known(pending, Count(c, r)) && InDoubt(pending, Count(c, r))
  {}

  lemma Finished<B>(pending: Option<Report<B>>, c: Channel<B>)
    requires Known(pending, c) && InDoubt(pending, c)
    ensures Known(None, c)
  {}
}

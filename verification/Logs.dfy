/** What was called and what was answered, against the specification's run of it. */
module Logs {
  import opened Rows
  import opened Spec

  /** A call that ended: the call, the id it was handed, and what it answered. */
  datatype Entry = Entry(event: Event, reply: Reply)

  /** The log, replayed one call after another, gives the same answers and ends in `final`. */
  ghost predicate Serial(db: Database, log: seq<Entry>, final: Database)
    decreases |log|
  {
    if log == [] then final == db
    else
      var outcome := Apply(db, log[0].event.op, log[0].event.id);
      outcome.reply == log[0].reply && Serial(outcome.db, log[1..], final)
  }

  lemma {:induction false} SerialOneMore(db: Database, log: seq<Entry>, final: Database, entry: Entry)
    requires Serial(db, log, final) && Apply(final, entry.event.op, entry.event.id).reply == entry.reply
    ensures Serial(db, log + [entry], Apply(final, entry.event.op, entry.event.id).db)
    decreases |log|
  {
    if log == [] {
      assert [entry][1..] == [];
    } else {
      assert (log + [entry])[1..] == log[1..] + [entry];
      SerialOneMore(Apply(db, log[0].event.op, log[0].event.id).db, log[1..], final, entry);
    }
  }

  ghost function EventsOf(log: seq<Entry>): seq<Event>
    ensures |EventsOf(log)| == |log| && forall i :: 0 <= i < |log| ==> EventsOf(log)[i] == log[i].event
    decreases |log|
  {
    if log == [] then [] else [log[0].event] + EventsOf(log[1..])
  }

  lemma {:induction false} SerialIsARun(db: Database, log: seq<Entry>, final: Database)
    requires Serial(db, log, final)
    ensures final == Run(db, EventsOf(log))
    decreases |log|
  {
    if log != [] { SerialIsARun(Apply(db, log[0].event.op, log[0].event.id).db, log[1..], final); }
  }
}

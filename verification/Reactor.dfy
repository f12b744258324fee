/**
 * The rules of a callback stream, as a monitor of the calls a session makes on it.  The monitor
 * keeps its own account of what is outstanding; a call that breaks a rule sets `broken` for good.
 */
module Reactor {
  import opened Common
  import opened PushTypes

  datatype Status = Ok | Exhausted(reason: string)

  datatype Wire = Wire(
    readsOut: nat,            // reads started and not completed
    writeOut: Option<Event>,  // the message the transport is sending
    inputBusy: bool,          // the session is using the received message
    metadata: bool,           // initial metadata has been sent
    finishes: nat,            // calls of Finish
    written: seq<Event>,      // completed writes, in order
    delivered: seq<Event>,    // writes that completed successfully, in order
    lastHint: bool,           // the latest write carried a buffer hint
    hintRun: nat,             // consecutive hinted writes up to the latest one
    broken: bool)

  const IDLE := Wire(0, None, false, false, 0, [], [], false, 0, false)

  /** At most one read at a time, never into a message in use, never after Finish. */
  function StartRead(w: Wire): Wire {
    w.(readsOut := w.readsOut + 1, broken := w.broken || w.readsOut > 0 || w.inputBusy || w.finishes > 0)
  }

  /** At most one write at a time, after the metadata and before Finish. */
  function StartWrite(w: Wire, e: Event, hint: bool): Wire {
    w.(writeOut := Some(e), lastHint := hint, hintRun := if hint then w.hintRun + 1 else 0,
       broken := w.broken || w.writeOut.Some? || !w.metadata || w.finishes > 0)
  }

  /** Finish comes once, after the metadata, and with no write outstanding. */
  function Finish(w: Wire): Wire {
    w.(finishes := w.finishes + 1, broken := w.broken || w.finishes > 0 || w.writeOut.Some? || !w.metadata)
  }

  function MetadataDone(w: Wire): Wire {
    w.(metadata := true)
  }

  function ReadDone(w: Wire): Wire
    requires w.readsOut > 0
  {
    w.(readsOut := w.readsOut - 1)
  }

  function WriteDone(w: Wire, ok: bool): Wire
    requires w.writeOut.Some?
  {
    w.(writeOut := None, written := w.written + [w.writeOut.value],
       delivered := if ok then w.delivered + [w.writeOut.value] else w.delivered)
  }

  /** The received message is handed to the session. */
  function UseInput(w: Wire): Wire {
    w.(inputBusy := true, broken := w.broken || w.readsOut > 0)
  }

  function ReleaseInput(w: Wire): Wire {
    w.(inputBusy := false)
  }
}

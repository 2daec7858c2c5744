/**
 * The LiveView hook the dispatcher pushes its responses through. Only its
 * `pushEvent` is used; the transport behind it is abstract.
 */
module Channel {
  import opened Wrappers
  import opened JsValue
  import opened Envelope

  class Hook {
    /** Every `pushEvent` call made so far, in order, including calls that
        threw. */
    var pushed: seq<Event>

    /** Whether `pushEvent` throws for an event, and with what: the
        transport (serialisation, a closed socket) is not part of this
        model, so it is given as a function of the event. */
    const refuses: Event -> Option<Thrown>

    constructor (refuses: Event -> Option<Thrown>)
      ensures pushed == [] && this.refuses == refuses
    {
      pushed := [];
      this.refuses := refuses;
    }

    /** `pushEvent(name, payload)`: records the call, then throws `fault`
        synchronously when the transport refuses the event. The promise
        `pushEvent` returns is not awaited by the dispatcher, so a later
        rejection of it is not part of this model. */
    method PushEvent(name: string, payload: Response) returns (fault: Option<Thrown>)
      modifies this
      ensures pushed == old(pushed) + [Event(name, payload)]
      ensures fault == refuses(Event(name, payload))
    {
      pushed := pushed + [Event(name, payload)];
      fault := refuses(Event(name, payload));
    }
  }
}

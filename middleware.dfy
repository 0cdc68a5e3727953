/** The `Informant` middleware object: its configuration, the sampler
    fields it updates on every finished request, and the per-request event
    that consults the sampler, derives the metric lines and hands their
    payloads to the transport. */
module Middleware {

  import opened Wrappers
  import opened Text
  import Sampler
  import opened Metrics
  import opened Packets

  class Informant {
    // Configuration, fixed at construction.
    const sampleRate: real
    /** How `%s` renders `sampleRate` in the lines. */
    const sampleRateText: string
    const validMethods: seq<string>
    const combinedEvents: bool
    const metricNamePrepend: string

    // Sampler state.
    var actualRate: real
    var counter: int
    var monitored: int

    /** The sampler fields as a value. */
    function State(): Sampler.SamplerState
      reads this
    {
      Sampler.SamplerState(counter, monitored, actualRate)
    }

    ghost predicate Valid()
      reads this
    {
      Sampler.Valid(State())
    }

    /** `Informant.__init__`, given the settings it reads. */
    constructor (sampleRate: real, sampleRateText: string, validMethodsSetting: string,
                 combinedEvents: bool, metricNamePrepend: string)
      ensures Valid() && State() == Sampler.Fresh
      ensures this.sampleRate == sampleRate && this.sampleRateText == sampleRateText
      ensures validMethods == ParseValidMethods(validMethodsSetting)
      ensures this.combinedEvents == combinedEvents
      ensures this.metricNamePrepend == metricNamePrepend
    {
      this.sampleRate := sampleRate;
      this.sampleRateText := sampleRateText;
      this.validMethods := ParseValidMethods(validMethodsSetting);
      this.combinedEvents := combinedEvents;
      this.metricNamePrepend := metricNamePrepend;
      actualRate := 0.0;
      counter := 0;
      monitored := 0;
    }

    /** `_send_sampled_event`: counts the event, samples it when the
        observed rate is below the target, recomputes the observed rate and
        resets both counters once either reaches `MaxInt`. */
    method SendSampledEvent() returns (sendSample: bool)
      requires Valid()
      modifies this
      ensures Valid()
      ensures sendSample <==> old(actualRate) < sampleRate
      ensures Sampler.Step(old(State()), sampleRate) == Sampler.Decision(State(), sendSample)
    {
      sendSample := false;
      counter := counter + 1;
      if actualRate < sampleRate {
        monitored := monitored + 1;
        sendSample := true;
      }
      actualRate := monitored as real / counter as real;
      if counter >= Sampler.MaxInt || monitored >= Sampler.MaxInt {
        counter := 0;
        monitored := 0;
      }
    }

    /** The payloads `_send_events` passes to `sendto`, in the order it
        sends them. */
    method SendEvents(payloads: seq<string>, combined: bool) returns (sent: seq<string>)
      ensures sent == Payloads(payloads, combined)
    {
      if !combined {
        sent := [];
        for i := 0 to |payloads|
          invariant sent == payloads[..i]
        {
          sent := sent + [payloads[i]];
        }
      } else {
        sent := [Join(payloads, CombineKey)];
      }
    }

    /** `statsd_event`: consults the sampler and, when the event is sampled
        and both environment entries are present, returns the payloads sent
        for its three lines; otherwise nothing is sent. The clock reading
        `now` is a parameter. */
    method StatsdEvent(env: Env, req: Request, now: real) returns (sent: seq<string>)
      requires Valid()
      modifies this
      ensures Valid()
      ensures var d := Sampler.Step(old(State()), sampleRate);
              var lines := EventLines(metricNamePrepend, sampleRateText, validMethods, env, req, now);
              && State() == d.next
              && sent == (if d.sample && lines.Some? then Payloads(lines.value, combinedEvents) else [])
    {
      sent := [];
      var sample := SendSampledEvent();
      if sample {
        var lines := EventLines(metricNamePrepend, sampleRateText, validMethods, env, req, now);
        if lines.Some? {
          sent := SendEvents(lines.value, combinedEvents);
        }
      }
    }
  }

  /** A client of the object: at rate 1.0 the first event is sampled and
      the second is not. */
  method RateOneClient() returns (first: bool, second: bool)
    ensures first && !second
  {
    var informant := new Informant(1.0, "1.0", DefaultValidMethods, false, "");
    first := informant.SendSampledEvent();
    second := informant.SendSampledEvent();
    Sampler.RateOneSkipsSecondCall();
  }
}

/** The payloads `Informant._send_events` hands to the UDP socket: one
    datagram per line, or all lines joined by '#' into one datagram. */
module Packets {

  import opened Text

  /** The separator hard-coded for combined events. */
  const CombineKey: char := '#'

  /** The datagram payloads for a list of lines. */
  function Payloads(lines: seq<string>, combined: bool): (r: seq<string>)
    ensures combined ==> |r| == 1
    ensures !combined ==> r == lines
  {
    if combined then [Join(lines, CombineKey)] else lines
  }

  /** A combined datagram splits on '#' back into its lines, in order, as
      long as no line holds a '#'. */
  lemma CombinedRoundTrip(lines: seq<string>)
    requires |lines| >= 1
    requires forall i :: 0 <= i < |lines| ==> CombineKey !in lines[i]
    ensures Split(Payloads(lines, true)[0], CombineKey) == lines
  {
    SplitJoin(lines, CombineKey);
  }
}

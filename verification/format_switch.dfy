/** The format-change decision shared by the HTTP and FIFO audio loops
    (src/audio/sources/http.rs, src/audio/sources/fifo.rs). Each loop
    remembers the format it believes the incoming PCM has and owns an
    output stream built for some format; when a newly observed format
    differs, it rebuilds the stream, and that rebuild can fail.

    As written, both loops record the new format BEFORE the rebuild and
    compare later observations against that record. After a failed rebuild
    the next observation of the same format looks like "no change", so the
    stream built for the old format is never rebuilt. `ApplyAsWritten`
    models that; `Apply` compares against the format the stream was
    actually built for, which retries until a rebuild succeeds. */
module FormatSwitch {

  /** `current`: the format the loop decodes and equalises for;
      `stream`: the format the live output stream was built for. */
  datatype Switch<F> = Switch(current: F, stream: F)

  /** The outcome of one observation: the new state, whether a rebuild was
      attempted and whether it succeeded. */
  datatype Step<F> = Step(state: Switch<F>, attempted: bool, built: bool)

  /** The stream plays the format the data is decoded as. */
  predicate Synced<F(==)>(s: Switch<F>) {
    s.current == s.stream
  }

  /** The loops as written: rebuild when the observation differs from the
      recorded format, and record it whether or not the rebuild works. */
  function ApplyAsWritten<F(==)>(s: Switch<F>, observed: F, buildOk: bool): (r: Step<F>)
    ensures r.state.current == observed
    ensures r.attempted <==> observed != s.current
    ensures r.built <==> r.attempted && buildOk
    ensures r.state.stream == (if r.built then observed else s.stream)
  {
    if observed != s.current then Step(Switch(observed, if buildOk then observed else s.stream), true, buildOk)
    else Step(s, false, false)
  }

  /** The intended decision: rebuild whenever the observation differs from
      the format of the live stream. */
  function Apply<F(==)>(s: Switch<F>, observed: F, buildOk: bool): (r: Step<F>)
    ensures r.state.current == observed
    ensures r.attempted <==> observed != s.stream
    ensures r.built <==> r.attempted && buildOk
    ensures r.state.stream == (if r.built then observed else s.stream)
  {
    if observed != s.stream then Step(Switch(observed, if buildOk then observed else s.stream), true, buildOk)
    else Step(Switch(observed, s.stream), false, false)
  }

  /** With the intended decision the stream is out of step only right
      after a failed rebuild, and any observation that does not match the
      stream triggers a rebuild, so one successful build re-synchronises. */
  lemma ApplyResyncs<F>(s: Switch<F>, observed: F, buildOk: bool)
    ensures var r := Apply(s, observed, buildOk);
      && (Synced(r.state) || (r.attempted && !buildOk))
      && (!Synced(r.state) ==> Apply(r.state, observed, true).attempted && Synced(Apply(r.state, observed, true).state))
  {
  }

  /** As written, a failed rebuild is never retried: after it, the same
      observation with a build that would now succeed does nothing, and the
      stream stays built for the old format. */
  lemma AsWrittenStaysStale<F>(a: F, b: F)
    requires a != b
    ensures var s1 := ApplyAsWritten(Switch(a, a), b, false).state;
      var s2 := ApplyAsWritten(s1, b, true);
      && !s2.attempted
      && s2.state.stream == a && s2.state.current == b
      && !Synced(s2.state)
  {
  }
}

/**
 * The decoded-domain spec of the signal layer (`SignalSpec`, `SignalSpecBuilder`).
 * That layer is not part of this model; this module is a stand-in with the behaviour
 * the stream-spec code relies on: a sample rate and a channel count, a builder with
 * both fields optional, a merge in which equal or absent fields reconcile and
 * differing ones are a ParamMismatch, and a build that needs both fields.
 */
module SignalSpecs {
  import opened Outcomes
  import opened Ints
  import opened PhonicErrors

  datatype SignalSpec = SignalSpec(sampleRate: u32, channels: nat)

  datatype SignalSpecBuilder = SignalSpecBuilder(sampleRate: Option<u32>, channels: Option<nat>)

  /** The state an in-place `merge(&mut self, ..)` leaves behind, and what it returned. */
  datatype Merge<S> = Merge(state: S, result: Result<(), PhonicError>)

  /** `SignalSpec::merge`: two complete specs reconcile only when they are equal. */
  function MergeSignalSpec(self: SignalSpec, other: SignalSpec): Merge<SignalSpec> {
    if self == other then Merge(self, Ok(())) else Merge(self, Err(ParamMismatch))
  }

  /** `SignalSpecBuilder::merge`: each field as `get_or_insert` followed by a comparison. */
  function MergeSignalBuilder(self: SignalSpecBuilder, other: SignalSpecBuilder): Merge<SignalSpecBuilder> {
    if Conflict(self.sampleRate, other.sampleRate) then
      Merge(self, Err(ParamMismatch))
    else
      var s1 := self.(sampleRate := FillFrom(self.sampleRate, other.sampleRate));
      if Conflict(s1.channels, other.channels) then
        Merge(s1, Err(ParamMismatch))
      else
        Merge(s1.(channels := FillFrom(s1.channels, other.channels)), Ok(()))
  }

  predicate SignalIsFull(b: SignalSpecBuilder) {
    b.sampleRate.Some? && b.channels.Some?
  }

  predicate SignalIsEmpty(b: SignalSpecBuilder) {
    b.sampleRate.None? && b.channels.None?
  }

  function BuildSignal(b: SignalSpecBuilder): Result<SignalSpec, PhonicError> {
    if SignalIsFull(b) then Ok(SignalSpec(b.sampleRate.value, b.channels.value)) else Err(MissingData)
  }

  function SignalIntoBuilder(s: SignalSpec): SignalSpecBuilder {
    SignalSpecBuilder(Some(s.sampleRate), Some(s.channels))
  }
}

/**
 * The encoded-domain stream description (`StreamSpec<C>`) and its partial builder
 * (`StreamSpecBuilder<C>`): reconciliation of two descriptions of one stream, building,
 * and the conversions between the two shapes.
 *
 * `merge(&mut self, other)` changes the receiver in place and may stop half way; it is
 * modelled as a function giving the receiver's new value together with the result, so
 * that what a failed merge has already written is part of its contract.
 */
module StreamSpecs {
  import opened Outcomes
  import opened Ints
  import opened PhonicErrors
  import opened SignalSpecs

  /** Size and alignment of the stored sample type, as `TypeLayout::of::<T>()` reports them. */
  datatype TypeLayout = TypeLayout(size: nat, align: nat)

  datatype StreamSpec<C> = StreamSpec(
    codec: C,
    avgByteRate: u32,
    blockAlign: usize,
    sampleLayout: TypeLayout,
    decodedSpec: SignalSpec)

  datatype StreamSpecBuilder<C> = StreamSpecBuilder(
    codec: Option<C>,
    avgByteRate: Option<u32>,
    blockAlign: Option<usize>,
    sampleLayout: Option<TypeLayout>,
    decodedSpec: SignalSpecBuilder)

  /** A codec tag conversion that cannot fail (`T: Into<C>` seen as a `TryInto`). */
  function Lossless<C>(c: C): Result<C, PhonicError> {
    Ok(c)
  }

  // ---------------------------------------------------------------------------
  // Block alignment
  // ---------------------------------------------------------------------------

  /** A merge computes `max % min`; a zero alignment makes that panic. */
  predicate NonZeroAlign<C>(s: StreamSpec<C>) {
    s.blockAlign > 0
  }

  predicate NonZeroAlignSlot<C>(b: StreamSpecBuilder<C>) {
    b.blockAlign.Some? ==> b.blockAlign.value > 0
  }

  /** The larger alignment is a whole multiple of the smaller one. */
  predicate AlignsCompatible(a: nat, b: nat)
    requires a > 0 && b > 0
  {
    Max(a, b) % Min(a, b) == 0
  }

  /** Compatible alignments are both divisors of the larger one. */
  lemma CompatibleAlignsDivideMax(a: nat, b: nat)
    requires a > 0 && b > 0 && AlignsCompatible(a, b)
    ensures Max(a, b) % a == 0 && Max(a, b) % b == 0
  {
    MultipleOf(1, Max(a, b));
  }

  predicate AlignSlotsCompatible(mine: Option<usize>, theirs: Option<usize>)
    requires mine.Some? ==> mine.value > 0
    requires theirs.Some? ==> theirs.value > 0
  {
    mine.None? || theirs.None? || AlignsCompatible(mine.value, theirs.value)
  }

  // ---------------------------------------------------------------------------
  // StreamSpec
  // ---------------------------------------------------------------------------

  /** `From<StreamSpec<C>> for StreamSpecBuilder<C>`: every field known; building gives the spec back. */
  function IntoBuilder<C>(s: StreamSpec<C>): (b: StreamSpecBuilder<C>)
    ensures Build(b) == Ok(s)
  {
    StreamSpecBuilder(Some(s.codec), Some(s.avgByteRate), Some(s.blockAlign), Some(s.sampleLayout),
                      SignalIntoBuilder(s.decodedSpec))
  }

  /** `StreamSpec::with_tag_type`: the codec tag crosses representations, nothing else changes. */
  function WithTagType<C, T>(s: StreamSpec<C>, into: C -> T): (r: StreamSpec<T>)
    ensures BuilderWithTagType(IntoBuilder(s), (c: C) => Ok(into(c))) == Ok(IntoBuilder(r))
  {
    StreamSpec(into(s.codec), s.avgByteRate, s.blockAlign, s.sampleLayout, s.decodedSpec)
  }

  /**
   * The two descriptions are of one stream as far as `StreamSpec::merge` checks before
   * writing: the other codec converts and equals ours, byte rate and sample layout are
   * equal, and the block alignments are multiples of one another.
   */
  predicate Reconcilable<C(==), T>(self: StreamSpec<C>, other: StreamSpec<T>, convert: T -> Result<C, PhonicError>)
    requires NonZeroAlign(self) && NonZeroAlign(other)
  {
    && convert(other.codec).Ok?
    && convert(other.codec).value == self.codec
    && self.avgByteRate == other.avgByteRate
    && self.sampleLayout == other.sampleLayout
    && AlignsCompatible(self.blockAlign, other.blockAlign)
  }

  /** `StreamSpec::merge`, with `convert` standing for `TryInto<C>` on the other codec tag. */
  function MergeSpec<C(==), T>(self: StreamSpec<C>, other: StreamSpec<T>, convert: T -> Result<C, PhonicError>)
    : (m: Merge<StreamSpec<C>>)
    requires NonZeroAlign(self) && NonZeroAlign(other)
    ensures m.state.codec == self.codec && m.state.avgByteRate == self.avgByteRate
    ensures m.state.sampleLayout == self.sampleLayout
    ensures convert(other.codec).Err? ==> m == Merge(self, Err(convert(other.codec).error))
    ensures convert(other.codec).Ok? && !Reconcilable(self, other, convert) ==>
              m == Merge(self, Err(ParamMismatch))
    ensures Reconcilable(self, other, convert) ==>
              && m.state.blockAlign == Max(self.blockAlign, other.blockAlign)
              && m.state.blockAlign % self.blockAlign == 0
              && m.state.blockAlign % other.blockAlign == 0
              && m.state.decodedSpec == self.decodedSpec
    ensures m.result.Ok? <==> Reconcilable(self, other, convert) && self.decodedSpec == other.decodedSpec
  {
    var minAlign := Min(self.blockAlign, other.blockAlign);
    var maxAlign := Max(self.blockAlign, other.blockAlign);
    match convert(other.codec)
    case Err(e) => Merge(self, Err(e))
    case Ok(codec) =>
      if self.codec != codec || self.avgByteRate != other.avgByteRate
         || self.sampleLayout != other.sampleLayout || maxAlign % minAlign != 0
      then
        Merge(self, Err(ParamMismatch))
      else
        CompatibleAlignsDivideMax(self.blockAlign, other.blockAlign);
        var s1 := self.(blockAlign := maxAlign);
        var d := MergeSignalSpec(s1.decodedSpec, other.decodedSpec);
        Merge(s1.(decodedSpec := d.state), d.result)
  }

  /** `StreamSpec::merged`: the merged value, or the error that stopped the merge. */
  function MergedSpec<C(==), T>(self: StreamSpec<C>, other: StreamSpec<T>, convert: T -> Result<C, PhonicError>)
    : (r: Result<StreamSpec<C>, PhonicError>)
    requires NonZeroAlign(self) && NonZeroAlign(other)
    ensures r.Ok? <==> Reconcilable(self, other, convert) && self.decodedSpec == other.decodedSpec
    ensures r.Ok? ==> r.value == self.(blockAlign := Max(self.blockAlign, other.blockAlign))
    ensures r.Err? && convert(other.codec).Ok? ==> r.error == ParamMismatch
  {
    var m := MergeSpec(self, other, convert);
    if m.result.Err? then Err(m.result.error) else Ok(m.state)
  }

  // ---------------------------------------------------------------------------
  // StreamSpecBuilder
  // ---------------------------------------------------------------------------

  /** `StreamSpecBuilder::new` / `Default`: nothing known yet. */
  function NewBuilder<C>(): (b: StreamSpecBuilder<C>)
    ensures IsEmpty(b) && b.codec.None? && Build(b) == Err(MissingData)
  {
    StreamSpecBuilder(None, None, None, None, SignalSpecBuilder(None, None))
  }

  /**
   * `From<&T: Signal> for StreamSpecBuilder<C>`: a signal tells its sample layout and its
   * decoded spec, and nothing about the encoding.
   */
  function BuilderFromSignal<C>(layout: TypeLayout, spec: SignalSpec): (b: StreamSpecBuilder<C>)
    ensures b.codec.None? && b.avgByteRate.None? && b.blockAlign.None?
    ensures b.sampleLayout == Some(layout) && BuildSignal(b.decodedSpec) == Ok(spec)
  {
    NewBuilder().(sampleLayout := Some(layout), decodedSpec := SignalIntoBuilder(spec))
  }

  /** `StreamSpecBuilder::with_tag_type`: a fallible conversion of the codec tag, if one is set. */
  function BuilderWithTagType<C, T>(b: StreamSpecBuilder<C>, tryInto: C -> Result<T, PhonicError>)
    : (r: Result<StreamSpecBuilder<T>, PhonicError>)
    ensures r.Err? <==> b.codec.Some? && tryInto(b.codec.value).Err?
    ensures r.Err? ==> r.error == tryInto(b.codec.value).error
    ensures r.Ok? ==> r.value.codec.Some? == b.codec.Some?
    ensures r.Ok? && b.codec.Some? ==> Ok(r.value.codec.value) == tryInto(b.codec.value)
    ensures r.Ok? ==> r.value.avgByteRate == b.avgByteRate && r.value.blockAlign == b.blockAlign
    ensures r.Ok? ==> r.value.sampleLayout == b.sampleLayout && r.value.decodedSpec == b.decodedSpec
  {
    var codec :- if b.codec.None? then Ok(None)
                 else match tryInto(b.codec.value)
                      case Ok(t) => Ok(Some(t))
                      case Err(e) => Err(e);
    Ok(StreamSpecBuilder(codec, b.avgByteRate, b.blockAlign, b.sampleLayout, b.decodedSpec))
  }

  /** `is_full`: note that the codec is not among the fields it looks at. */
  predicate IsFull<C>(b: StreamSpecBuilder<C>): (full: bool)
    ensures Build(b).Ok? ==> full
    ensures full ==> !IsEmpty(b)
  {
    b.avgByteRate.Some? && b.blockAlign.Some? && b.sampleLayout.Some? && SignalIsFull(b.decodedSpec)
  }

  /** `is_empty`: again without looking at the codec. */
  predicate IsEmpty<C>(b: StreamSpecBuilder<C>): (empty: bool)
    ensures empty ==> Build(b) == Err(MissingData)
  {
    b.avgByteRate.None? && b.blockAlign.None? && b.sampleLayout.None? && SignalIsEmpty(b.decodedSpec)
  }

  /**
   * `StreamSpecBuilder::merge`. The codec and the byte rate are each filled in from
   * `other` when absent and compared when present; the block alignment keeps the larger
   * of two values that divide one another; the sample layout is never looked at.
   */
  function MergeBuilder<C(==)>(self: StreamSpecBuilder<C>, other: StreamSpecBuilder<C>)
    : (m: Merge<StreamSpecBuilder<C>>)
    requires NonZeroAlignSlot(self) && NonZeroAlignSlot(other)
    ensures m.state.sampleLayout == self.sampleLayout
    ensures m.state.codec == FillFrom(self.codec, other.codec)
    ensures Conflict(self.codec, other.codec) ==> m == Merge(self, Err(ParamMismatch))
    ensures !Conflict(self.codec, other.codec) ==>
              m.state.avgByteRate == FillFrom(self.avgByteRate, other.avgByteRate)
    ensures m.result.Ok? <==>
              && !Conflict(self.codec, other.codec)
              && !Conflict(self.avgByteRate, other.avgByteRate)
              && AlignSlotsCompatible(self.blockAlign, other.blockAlign)
              && MergeSignalBuilder(self.decodedSpec, other.decodedSpec).result.Ok?
    ensures m.result.Err? ==> m.result.error == ParamMismatch
    ensures !ReachesDecodedMerge(self, other) ==>
              m.state.blockAlign == self.blockAlign && m.state.decodedSpec == self.decodedSpec
    ensures ReachesDecodedMerge(self, other) ==>
              && (other.blockAlign.None? ==> m.state.blockAlign == self.blockAlign)
              && (self.blockAlign.None? ==> m.state.blockAlign == other.blockAlign)
              && (self.blockAlign.Some? && other.blockAlign.Some? ==>
                    m.state.blockAlign == Some(Max(self.blockAlign.value, other.blockAlign.value)))
              && m.state.decodedSpec == MergeSignalBuilder(self.decodedSpec, other.decodedSpec).state
              && m.result == MergeSignalBuilder(self.decodedSpec, other.decodedSpec).result
    ensures NonZeroAlignSlot(m.state)
  {
    if Conflict(self.codec, other.codec) then
      Merge(self, Err(ParamMismatch))
    else
      var s1 := self.(codec := FillFrom(self.codec, other.codec));
      if Conflict(s1.avgByteRate, other.avgByteRate) then
        Merge(s1, Err(ParamMismatch))
      else
        var s2 := s1.(avgByteRate := FillFrom(s1.avgByteRate, other.avgByteRate));
        if other.blockAlign.Some? then
          var align := other.blockAlign.value;
          var selfAlign := s2.blockAlign.GetOr(align);
          var lo := Min(align, selfAlign);
          var hi := Max(align, selfAlign);
          if hi % lo != 0 then
            Merge(s2, Err(ParamMismatch))
          else
            var s3 := s2.(blockAlign := Some(hi));
            var d := MergeSignalBuilder(s3.decodedSpec, other.decodedSpec);
            Merge(s3.(decodedSpec := d.state), d.result)
        else
          var d := MergeSignalBuilder(s2.decodedSpec, other.decodedSpec);
          Merge(s2.(decodedSpec := d.state), d.result)
  }

  /**
   * The codec, byte-rate and block-alignment checks of a builder merge all pass, so the
   * merge goes on to write the alignment and to merge the decoded specs.
   */
  predicate ReachesDecodedMerge<C(==)>(self: StreamSpecBuilder<C>, other: StreamSpecBuilder<C>)
    requires NonZeroAlignSlot(self) && NonZeroAlignSlot(other)
  {
    && !Conflict(self.codec, other.codec)
    && !Conflict(self.avgByteRate, other.avgByteRate)
    && AlignSlotsCompatible(self.blockAlign, other.blockAlign)
  }

  /** `StreamSpecBuilder::merged`. */
  function MergedBuilder<C(==)>(self: StreamSpecBuilder<C>, other: StreamSpecBuilder<C>)
    : (r: Result<StreamSpecBuilder<C>, PhonicError>)
    requires NonZeroAlignSlot(self) && NonZeroAlignSlot(other)
    ensures r.Ok? <==> MergeBuilder(self, other).result.Ok?
    ensures r.Ok? ==> r.value.codec == FillFrom(self.codec, other.codec)
    ensures r.Ok? ==> r.value.avgByteRate == FillFrom(self.avgByteRate, other.avgByteRate)
    ensures r.Ok? ==> r.value.sampleLayout == self.sampleLayout
    ensures r.Ok? ==> r.value == MergeBuilder(self, other).state && NonZeroAlignSlot(r.value)
    ensures r.Err? ==> r.error == ParamMismatch
  {
    var m := MergeBuilder(self, other);
    if m.result.Err? then Err(m.result.error) else Ok(m.state)
  }

  /** `build` / `TryFrom<StreamSpecBuilder<C>>`: every field must be present. */
  function Build<C>(b: StreamSpecBuilder<C>): (r: Result<StreamSpec<C>, PhonicError>)
    ensures r.Ok? <==>
              && b.codec.Some? && b.avgByteRate.Some? && b.blockAlign.Some? && b.sampleLayout.Some?
              && BuildSignal(b.decodedSpec).Ok?
    ensures r.Ok? ==> r.value == StreamSpec(b.codec.value, b.avgByteRate.value, b.blockAlign.value,
                                            b.sampleLayout.value, BuildSignal(b.decodedSpec).value)
    ensures r.Err? ==> r.error == MissingData
  {
    var codec :- b.codec.OkOr(MissingData);
    var avgByteRate :- b.avgByteRate.OkOr(MissingData);
    var blockAlign :- b.blockAlign.OkOr(MissingData);
    var sampleLayout :- b.sampleLayout.OkOr(MissingData);
    var decodedSpec :- BuildSignal(b.decodedSpec);
    Ok(StreamSpec(codec, avgByteRate, blockAlign, sampleLayout, decodedSpec))
  }

  // ---------------------------------------------------------------------------
  // Properties of merge
  // ---------------------------------------------------------------------------

  /** Block alignments 64 and 192 merge to 192; 64 and 100 are a ParamMismatch. */
  lemma BlockAlignMergeExamples()
    ensures var a := StreamSpec(0, 176400, 64, TypeLayout(2, 2), SignalSpec(44100, 2));
            var b := a.(blockAlign := 192);
            var c := a.(blockAlign := 100);
            && MergeSpec(a, b, Lossless) == Merge(b, Ok(()))
            && MergeSpec(b, a, Lossless) == Merge(b, Ok(()))
            && MergeSpec(a, c, Lossless) == Merge(a, Err(ParamMismatch))
  {
    var a := StreamSpec(0, 176400, 64, TypeLayout(2, 2), SignalSpec(44100, 2));
    assert 192 % 64 == 0;
    assert 100 % 64 == 36;
    assert !Reconcilable(a, a.(blockAlign := 100), Lossless);
  }

  /** Merging a spec with itself succeeds and changes nothing. */
  lemma MergeSpecIdempotent<C>(a: StreamSpec<C>)
    requires NonZeroAlign(a)
    ensures MergeSpec(a, a, Lossless) == Merge(a, Ok(()))
  {
    MultipleOf(1, a.blockAlign);
  }

  /** With the same codec type, merge does not depend on the order of its operands. */
  lemma MergeSpecCommutes<C>(a: StreamSpec<C>, b: StreamSpec<C>)
    requires NonZeroAlign(a) && NonZeroAlign(b)
    ensures MergeSpec(a, b, Lossless).result == MergeSpec(b, a, Lossless).result
    ensures MergeSpec(a, b, Lossless).result.Ok? ==>
              MergeSpec(a, b, Lossless).state == MergeSpec(b, a, Lossless).state
  {
    assert Max(a.blockAlign, b.blockAlign) == Max(b.blockAlign, a.blockAlign);
    assert Min(a.blockAlign, b.blockAlign) == Min(b.blockAlign, a.blockAlign);
    assert Reconcilable(a, b, Lossless) == Reconcilable(b, a, Lossless);
  }

  /** Merging a builder with itself succeeds and changes nothing. */
  lemma MergeBuilderIdempotent<C>(a: StreamSpecBuilder<C>)
    requires NonZeroAlignSlot(a)
    ensures MergeBuilder(a, a) == Merge(a, Ok(()))
  {
    if a.blockAlign.Some? {
      MultipleOf(1, a.blockAlign.value);
    }
  }

  /**
   * Builder merge is symmetric in everything but the sample layout, which stays the
   * receiver's.
   */
  lemma MergeBuilderCommutesExceptLayout<C>(a: StreamSpecBuilder<C>, b: StreamSpecBuilder<C>)
    requires NonZeroAlignSlot(a) && NonZeroAlignSlot(b)
    ensures MergeBuilder(a, b).result == MergeBuilder(b, a).result
    ensures MergeBuilder(a, b).result.Ok? ==>
              MergeBuilder(a, b).state.(sampleLayout := None) == MergeBuilder(b, a).state.(sampleLayout := None)
  {
    if a.blockAlign.Some? && b.blockAlign.Some? {
      assert Max(a.blockAlign.value, b.blockAlign.value) == Max(b.blockAlign.value, a.blockAlign.value);
      assert Min(a.blockAlign.value, b.blockAlign.value) == Min(b.blockAlign.value, a.blockAlign.value);
    }
  }

  /**
   * A later mismatch does not undo an earlier fill: the codec taken from `other` is
   * already in place when the byte rates turn out to differ.
   */
  lemma MergeBuilderKeepsEarlierFill()
    ensures var self: StreamSpecBuilder<int> := NewBuilder().(avgByteRate := Some(8000));
            var other: StreamSpecBuilder<int> := NewBuilder().(codec := Some(1), avgByteRate := Some(16000));
            MergeBuilder(self, other) == Merge(self.(codec := Some(1)), Err(ParamMismatch))
  {
  }

  /**
   * The sample layout is not reconciled: a layout known only to `other` is lost, and two
   * different layouts merge without complaint, so the order of the operands matters.
   */
  lemma MergeBuilderDropsLayout()
    ensures var fromSignal: StreamSpecBuilder<int> := BuilderFromSignal(TypeLayout(2, 2), SignalSpec(44100, 2));
            var fromHeader: StreamSpecBuilder<int> := NewBuilder().(codec := Some(1), sampleLayout := Some(TypeLayout(4, 4)));
            && MergeBuilder(NewBuilder(), fromSignal).result.Ok?
            && MergeBuilder(NewBuilder(), fromSignal).state.sampleLayout.None?
            && MergeBuilder(fromSignal, NewBuilder()).state.sampleLayout == Some(TypeLayout(2, 2))
            && MergeBuilder(fromHeader, fromSignal).result.Ok?
  {
  }

  /**
   * Builder merge with the sample layout reconciled like the byte rate: taken from
   * `other` when absent, compared when present.
   */
  function MergeBuilderChecked<C(==)>(self: StreamSpecBuilder<C>, other: StreamSpecBuilder<C>)
    : (m: Merge<StreamSpecBuilder<C>>)
    requires NonZeroAlignSlot(self) && NonZeroAlignSlot(other)
    ensures Conflict(self.sampleLayout, other.sampleLayout) ==> m == Merge(self, Err(ParamMismatch))
    ensures m.result.Ok? <==>
              !Conflict(self.sampleLayout, other.sampleLayout) && MergeBuilder(self, other).result.Ok?
    ensures m.result.Ok? ==> m.state.sampleLayout == FillFrom(self.sampleLayout, other.sampleLayout)
  {
    if Conflict(self.sampleLayout, other.sampleLayout) then
      Merge(self, Err(ParamMismatch))
    else
      var m := MergeBuilder(self, other);
      Merge(m.state.(sampleLayout := FillFrom(self.sampleLayout, other.sampleLayout)), m.result)
  }

  /** With the layout reconciled, builder merge no longer depends on operand order. */
  lemma MergeBuilderCheckedCommutes<C>(a: StreamSpecBuilder<C>, b: StreamSpecBuilder<C>)
    requires NonZeroAlignSlot(a) && NonZeroAlignSlot(b)
    ensures MergeBuilderChecked(a, b).result == MergeBuilderChecked(b, a).result
    ensures MergeBuilderChecked(a, b).result.Ok? ==>
              MergeBuilderChecked(a, b).state == MergeBuilderChecked(b, a).state
  {
    MergeBuilderCommutesExceptLayout(a, b);
  }

  /**
   * With one block alignment throughout, merging is associative: `(a + b) + c` succeeds
   * exactly when `a + (b + c)` does, and then gives the same spec.
   */
  lemma MergeSpecAssociative<C>(a: StreamSpec<C>, b: StreamSpec<C>, c: StreamSpec<C>)
    requires NonZeroAlign(a) && b.blockAlign == a.blockAlign && c.blockAlign == a.blockAlign
    ensures var ab := MergedSpec(a, b, Lossless);
            var bc := MergedSpec(b, c, Lossless);
            (ab.Ok? && MergedSpec(ab.value, c, Lossless).Ok?) <==> (bc.Ok? && MergedSpec(a, bc.value, Lossless).Ok?)
    ensures var ab := MergedSpec(a, b, Lossless);
            var bc := MergedSpec(b, c, Lossless);
            ab.Ok? && MergedSpec(ab.value, c, Lossless).Ok? ==>
              MergedSpec(ab.value, c, Lossless) == MergedSpec(a, bc.value, Lossless)
  {
    MultipleOf(1, a.blockAlign);
  }

  /**
   * Block alignments are not associative: 3 and 2 do not merge, yet 2 merges with 6 and
   * the result merges with 3.
   */
  lemma MergeSpecAlignNotAssociative()
    ensures var a := StreamSpec(0, 8000, 3, TypeLayout(2, 2), SignalSpec(8000, 1));
            var b := a.(blockAlign := 2);
            var c := a.(blockAlign := 6);
            && MergedSpec(a, b, Lossless) == Err(ParamMismatch)
            && MergedSpec(b, c, Lossless) == Ok(c)
            && MergedSpec(a, MergedSpec(b, c, Lossless).value, Lossless) == Ok(c)
  {
    var a := StreamSpec(0, 8000, 3, TypeLayout(2, 2), SignalSpec(8000, 1));
    assert 3 % 2 == 1 && 6 % 2 == 0 && 6 % 3 == 0;
    assert !Reconcilable(a, a.(blockAlign := 2), Lossless);
  }

  /** Two alignment slots that are equal wherever both are present. */
  predicate AlignsAgree(mine: Option<usize>, theirs: Option<usize>) {
    mine.None? || theirs.None? || mine == theirs
  }

  /**
   * With the present block alignments all equal, builder merge is associative: the same
   * outcome and the same builder whichever pair is merged first.
   */
  lemma MergeBuilderAssociative<C>(a: StreamSpecBuilder<C>, b: StreamSpecBuilder<C>, c: StreamSpecBuilder<C>)
    requires NonZeroAlignSlot(a) && NonZeroAlignSlot(b) && NonZeroAlignSlot(c)
    requires AlignsAgree(a.blockAlign, b.blockAlign) && AlignsAgree(b.blockAlign, c.blockAlign)
    requires AlignsAgree(a.blockAlign, c.blockAlign)
    ensures var ab := MergedBuilder(a, b);
            var bc := MergedBuilder(b, c);
            (ab.Ok? && MergedBuilder(ab.value, c).Ok?) <==> (bc.Ok? && MergedBuilder(a, bc.value).Ok?)
    ensures var ab := MergedBuilder(a, b);
            var bc := MergedBuilder(b, c);
            ab.Ok? && MergedBuilder(ab.value, c).Ok? ==> MergedBuilder(ab.value, c) == MergedBuilder(a, bc.value)
  {
    if a.blockAlign.Some? {
      MultipleOf(1, a.blockAlign.value);
    }
    if b.blockAlign.Some? {
      MultipleOf(1, b.blockAlign.value);
    }
    if c.blockAlign.Some? {
      MultipleOf(1, c.blockAlign.value);
    }
  }

  // ---------------------------------------------------------------------------
  // Build and the conversions
  // ---------------------------------------------------------------------------

  /** `is_full` does not look at the codec, so a full builder may still fail to build. */
  lemma FullBuilderMayNotBuild()
    ensures var b: StreamSpecBuilder<int> :=
              StreamSpecBuilder(None, Some(8000), Some(4), Some(TypeLayout(2, 2)), SignalSpecBuilder(Some(8000), Some(2)));
            IsFull(b) && Build(b) == Err(MissingData)
  {
  }

  /** A builder that builds is exactly the builder of what it builds. */
  lemma BuildIntoBuilder<C>(b: StreamSpecBuilder<C>)
    requires Build(b).Ok?
    ensures IntoBuilder(Build(b).value) == b
  {
  }

  /** Converting the codec tag before building is the same as converting after. */
  lemma TagConversionCommutesWithBuild<C, T>(b: StreamSpecBuilder<C>, into: C -> T)
    ensures var converted := BuilderWithTagType(b, (c: C) => Ok(into(c)));
            && converted.Ok?
            && Build(converted.value).Ok? == Build(b).Ok?
            && (Build(b).Ok? ==> Build(converted.value).value == WithTagType(Build(b).value, into))
  {
  }
}

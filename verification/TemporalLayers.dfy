/**
 VideoEncoder's temporal layering: a 16-frame table of reference and update flags that
 makes five droppable layers of one VP8 stream. The meaning of a stream is what a decoder
 makes of it (sections 9.7 and 9.8 of RFC 6386); entropy state is abstracted, since the
 encoder runs in error-resilient mode.
 */
module TemporalLayers {
  import opened Bytes

  const PERIOD: nat := 16
  const LAYERS: nat := 5

  /** The reference buffers of section 9.7. */
  datatype Buffer = Last | Golden | Altref

  datatype Flags = Flags(forceKey: bool, noRefLast: bool, noRefGolden: bool, noRefAltref: bool,
                         noUpdLast: bool, noUpdGolden: bool, noUpdAltref: bool) {
    predicate NoRef(b: Buffer) {
      forceKey || match b case Last => noRefLast case Golden => noRefGolden case Altref => noRefAltref
    }

    predicate NoUpd(b: Buffer) {
      match b case Last => noUpdLast case Golden => noUpdGolden case Altref => noUpdAltref
    }
  }

  const FORCE_KF: Flags := Flags(true, false, false, false, false, false, false)
  const NO_UPDATES: Flags := Flags(false, false, false, false, true, true, true)
  const UPDATE_LAST: Flags := Flags(false, false, false, false, false, true, true)
  const UPDATE_LAST_GOLDEN: Flags := Flags(false, true, false, false, false, false, true)
  const FROM_ALTREF: Flags := Flags(false, true, true, false, false, false, false)

  /** A layer id and flags for every place in the period. */
  datatype Table = Table(id: nat -> nat, flags: nat -> Flags)

  /** ts_layer_id. */
  function LayerId(phase: nat): (id: nat)
    ensures id < LAYERS
  {
    if phase % 16 == 0 then 0
    else if phase % 16 == 8 then 1
    else if phase % 8 == 4 then 2
    else if phase % 4 == 2 then 3
    else 4
  }

  /** layerFlags_. */
  function LayerFlags(phase: nat): Flags {
    if phase % 16 == 0 then FORCE_KF
    else if phase % 16 == 8 then FROM_ALTREF
    else if phase % 8 == 4 then UPDATE_LAST_GOLDEN
    else if phase % 4 == 2 then UPDATE_LAST
    else NO_UPDATES
  }

  const Vp8: Table := Table(LayerId, LayerFlags)

  // ----- what a decoder does

  /** How a frame leaves a reference buffer: as it was, holding the new picture, or copied from another. */
  datatype Update = Keep | Store | Copy(from: Buffer)

  /** A coded frame: its place in the period, its data, and its three buffer updates. */
  datatype Frame<D> = Frame(phase: nat, data: D, last: Update, golden: Update, altref: Update) {
    function Of(b: Buffer): Update {
      match b case Last => last case Golden => golden case Altref => altref
    }
  }

  datatype Refs<P> = Refs(last: Option<P>, golden: Option<P>, altref: Option<P>) {
    function Of(b: Buffer): Option<P> {
      match b case Last => last case Golden => golden case Altref => altref
    }
  }

  /** Reconstruction of a picture from a frame's data and the references it may use. */
  type Decode<!D, !P> = (D, Option<P>, Option<P>, Option<P>) -> P

  /**
   The encoder's side of the bargain: forbidden buffers are neither updated nor copied from; key
   frames refresh all three.
   */
  ghost predicate Obeys<D(!new)>(t: Table, f: Frame<D>) {
    var fl := t.flags(f.phase);
    forall b :: (fl.forceKey ==> f.Of(b) == Store) && (fl.NoUpd(b) ==> f.Of(b) == Keep) &&
                (f.Of(b).Copy? ==> !fl.NoRef(f.Of(b).from))
  }

  function Visible<P>(fl: Flags, r: Refs<P>, b: Buffer): Option<P> {
    if fl.NoRef(b) then None else r.Of(b)
  }

  function Picture<D, P>(t: Table, dec: Decode<D, P>, f: Frame<D>, r: Refs<P>): P {
    var fl := t.flags(f.phase);
    dec(f.data, Visible(fl, r, Last), Visible(fl, r, Golden), Visible(fl, r, Altref))
  }

  function Updated<D, P>(f: Frame<D>, picture: P, r: Refs<P>, b: Buffer): Option<P> {
    match f.Of(b)
    case Keep => r.Of(b)
    case Store => Some(picture)
    case Copy(from) => r.Of(from)
  }

  function After<D, P>(t: Table, dec: Decode<D, P>, f: Frame<D>, r: Refs<P>): Refs<P> {
    var p := Picture(t, dec, f, r);
    Refs(Updated(f, p, r, Last), Updated(f, p, r, Golden), Updated(f, p, r, Altref))
  }

  /** The pictures a decoder makes of a stream. */
  function Pictures<D, P>(t: Table, dec: Decode<D, P>, r: Refs<P>, fs: seq<Frame<D>>): (ps: seq<P>)
    ensures |ps| == |fs|
    decreases |fs|
  {
    if fs == [] then [] else [Picture(t, dec, fs[0], r)] + Pictures(t, dec, After(t, dec, fs[0], r), fs[1..])
  }

  /** The frames of the layers up to bound. */
  function UpTo<D>(t: Table, fs: seq<Frame<D>>, bound: nat): seq<Frame<D>> {
    if fs == [] then [] else (if t.id(fs[0].phase) <= bound then [fs[0]] else []) + UpTo(t, fs[1..], bound)
  }

  /** The pictures of those frames, among the pictures of the whole stream. */
  function PicturesUpTo<D, P>(t: Table, fs: seq<Frame<D>>, ps: seq<P>, bound: nat): seq<P>
    requires |fs| == |ps|
  {
    if fs == [] then []
    else (if t.id(fs[0].phase) <= bound then [ps[0]] else []) + PicturesUpTo(t, fs[1..], ps[1..], bound)
  }

  // ----- when a table makes layers droppable

  /** Some frame can obey these flags. */
  predicate CanOccur(fl: Flags) {
    fl.forceKey ==> !fl.noUpdLast && !fl.noUpdGolden && !fl.noUpdAltref
  }

  /** No frame above the bound updates the buffer. */
  ghost predicate Clean(t: Table, bound: nat, b: Buffer) {
    forall q: nat :: CanOccur(t.flags(q)) && t.id(q) > bound ==> t.flags(q).NoUpd(b)
  }

  /** What a frame may reference is only updated by frames of its own layer and below. */
  ghost predicate Closed(t: Table) {
    forall p: nat, bound: nat, b: Buffer ::
      CanOccur(t.flags(p)) && t.id(p) <= bound && !t.flags(p).NoRef(b) ==> Clean(t, bound, b)
  }

  /** What a decoder of the layers up to bound shares with a decoder of everything. */
  ghost predicate Agree<P(!new)>(t: Table, a: Refs<P>, b: Refs<P>, bound: nat) {
    forall x :: Clean(t, bound, x) ==> a.Of(x) == b.Of(x)
  }

  lemma ObeysCanOccur<D(!new)>(t: Table, f: Frame<D>)
    requires Obeys(t, f)
    ensures CanOccur(t.flags(f.phase))
  {
    var fl := t.flags(f.phase);
    assert fl.forceKey ==> !fl.NoUpd(Last) && !fl.NoUpd(Golden) && !fl.NoUpd(Altref);
  }

  lemma AfterOf<D, P>(t: Table, dec: Decode<D, P>, f: Frame<D>, r: Refs<P>, x: Buffer)
    ensures After(t, dec, f, r).Of(x) == Updated(f, Picture(t, dec, f, r), r, x)
  {
  }

  /** A frame within the bound is decoded alike and keeps the agreement. */
  lemma FrameWithin<D(!new), P(!new)>(t: Table, dec: Decode<D, P>, f: Frame<D>,
                                      full: Refs<P>, part: Refs<P>, bound: nat)
    requires Closed(t) && Obeys(t, f) && Agree(t, full, part, bound) && t.id(f.phase) <= bound
    ensures Picture(t, dec, f, full) == Picture(t, dec, f, part)
    ensures Agree(t, After(t, dec, f, full), After(t, dec, f, part), bound)
  {
    ObeysCanOccur(t, f);
    var fl := t.flags(f.phase);
    assert forall b :: !fl.NoRef(b) ==> Clean(t, bound, b);
    assert forall b :: Visible(fl, full, b) == Visible(fl, part, b);
    forall x | Clean(t, bound, x)
      ensures After(t, dec, f, full).Of(x) == After(t, dec, f, part).Of(x)
    {
      AfterOf(t, dec, f, full, x);
      AfterOf(t, dec, f, part, x);
    }
  }

  /** A frame beyond it does not disturb what is shared. */
  lemma FrameBeyond<D(!new), P(!new)>(t: Table, dec: Decode<D, P>, f: Frame<D>,
                                      full: Refs<P>, part: Refs<P>, bound: nat)
    requires Obeys(t, f) && Agree(t, full, part, bound) && t.id(f.phase) > bound
    ensures Agree(t, After(t, dec, f, full), part, bound)
  {
    ObeysCanOccur(t, f);
    forall x | Clean(t, bound, x)
      ensures After(t, dec, f, full).Of(x) == part.Of(x)
    {
      assert t.flags(f.phase).NoUpd(x);
      AfterOf(t, dec, f, full, x);
    }
  }

  /**
   With a closed table, dropping every layer above a bound leaves the pictures of the
   remaining frames exactly as they were: for every stream, decoder and bound, and with any
   frames missing (the encoder may skip a place).
   */
  lemma {:induction false} LayersDroppable<D(!new), P(!new)>(t: Table, dec: Decode<D, P>, fs: seq<Frame<D>>,
                                                             full: Refs<P>, part: Refs<P>, bound: nat)
    requires Closed(t) && AllObey(t, fs) && Agree(t, full, part, bound)
    ensures Pictures(t, dec, part, UpTo(t, fs, bound)) == PicturesUpTo(t, fs, Pictures(t, dec, full, fs), bound)
    decreases |fs|
  {
    if fs != [] {
      var f, rest := fs[0], fs[1..];
      var ps := Pictures(t, dec, full, fs);
      var full' := After(t, dec, f, full);
      assert ps[1..] == Pictures(t, dec, full', rest);
      if t.id(f.phase) <= bound {
        FrameWithin(t, dec, f, full, part, bound);
        LayersDroppable(t, dec, rest, full', After(t, dec, f, part), bound);
        assert ([f] + UpTo(t, rest, bound))[1..] == UpTo(t, rest, bound);
      } else {
        FrameBeyond(t, dec, f, full, part, bound);
        LayersDroppable(t, dec, rest, full', part, bound);
        assert [] + UpTo(t, rest, bound) == UpTo(t, rest, bound);
        assert [] + PicturesUpTo(t, rest, ps[1..], bound) == PicturesUpTo(t, rest, ps[1..], bound);
      }
    }
  }

  ghost predicate AllObey<D(!new)>(t: Table, fs: seq<Frame<D>>) {
    forall f :: f in fs ==> Obeys(t, f)
  }

  /** The table of this encoder is closed. */
  lemma Vp8Closed()
    ensures Closed(Vp8)
  {
    forall p: nat, bound: nat, b: Buffer | CanOccur(LayerFlags(p)) && LayerId(p) <= bound && !LayerFlags(p).NoRef(b)
      ensures Clean(Vp8, bound, b)
    {
    }
  }

  // ----- and only then

  /** Adds up what it sees. */
  function Adder(): Decode<nat, nat> {
    (d: nat, l: Option<nat>, g: Option<nat>, a: Option<nat>) => d + l.GetOr(0) + g.GetOr(0) + a.GetOr(0)
  }

  const ZEROS: Refs<nat> := Refs(Some(0), Some(0), Some(0))

  /** A frame that updates the buffer if its flags let it. */
  function Writer(fl: Flags, phase: nat, b: Buffer): Frame<nat> {
    Frame(phase, 1, if fl.forceKey || b == Last then Store else Keep,
          if fl.forceKey || b == Golden then Store else Keep,
          if fl.forceKey || b == Altref then Store else Keep)
  }

  /** A frame that adds nothing of its own. */
  function Looker(fl: Flags, phase: nat): Frame<nat> {
    var u := if fl.forceKey then Store else Keep;
    Frame(phase, 0, u, u, u)
  }

  /** Dropping what is above the bound does not change the remaining pictures, for this one decoder and stream. */
  ghost predicate SameWhenDropped(t: Table, fs: seq<Frame<nat>>, bound: nat) {
    Pictures(t, Adder(), ZEROS, UpTo(t, fs, bound)) == PicturesUpTo(t, fs, Pictures(t, Adder(), ZEROS, fs), bound)
  }

  ghost predicate DroppableByAdder(t: Table) {
    forall fs: seq<Frame<nat>>, bound: nat :: AllObey(t, fs) ==> SameWhenDropped(t, fs, bound)
  }

  /**
   A table that is not closed fails on a stream of two frames: one above the bound writes
   a buffer, one within the bound shows it.
   */
  lemma OpenTableFails(t: Table, p: nat, q: nat, bound: nat, b: Buffer)
    requires CanOccur(t.flags(p)) && t.id(p) <= bound && !t.flags(p).NoRef(b)
    requires CanOccur(t.flags(q)) && t.id(q) > bound && !t.flags(q).NoUpd(b)
    ensures var fs := [Writer(t.flags(q), q, b), Looker(t.flags(p), p)];
            AllObey(t, fs) && !SameWhenDropped(t, fs, bound)
  {
    var w, l := Writer(t.flags(q), q, b), Looker(t.flags(p), p);
    var dec := Adder();
    var r := After(t, dec, w, ZEROS);
    AfterOf(t, dec, w, ZEROS, b);
    assert r.Of(b) == Some(1);
    assert Picture(t, dec, l, r) >= 1 by {
      assert Visible(t.flags(p), r, b) == Some(1);
    }
    assert Picture(t, dec, l, ZEROS) == 0;
    var fs := [w, l];
    assert Obeys(t, w) && Obeys(t, l);
    assert fs[1..] == [l] && [l][1..] == [];
    assert Pictures(t, dec, r, [l]) == [Picture(t, dec, l, r)];
    var ps := Pictures(t, dec, ZEROS, fs);
    assert ps[1..] == [Picture(t, dec, l, r)];
    assert UpTo(t, [l], bound) == [l];
    assert UpTo(t, fs, bound) == [l];
    assert Pictures(t, dec, ZEROS, UpTo(t, fs, bound)) == [0];
    assert PicturesUpTo(t, [l], ps[1..], bound) == [Picture(t, dec, l, r)];
    assert PicturesUpTo(t, fs, ps, bound)[0] >= 1;
  }

  lemma ClosedDrops(t: Table)
    requires Closed(t)
    ensures DroppableByAdder(t)
  {
    forall fs: seq<Frame<nat>>, bound: nat | AllObey(t, fs)
      ensures SameWhenDropped(t, fs, bound)
    {
      LayersDroppable(t, Adder(), fs, ZEROS, ZEROS, bound);
    }
  }

  lemma OpenSpoils(t: Table)
    requires !Closed(t)
    ensures !DroppableByAdder(t)
  {
    var p: nat, bound: nat, b: Buffer :|
      CanOccur(t.flags(p)) && t.id(p) <= bound && !t.flags(p).NoRef(b) && !Clean(t, bound, b);
    var q: nat :| CanOccur(t.flags(q)) && t.id(q) > bound && !t.flags(q).NoUpd(b);
    OpenTableFails(t, p, q, bound, b);
  }

  /** Closedness is exactly what droppable layers need. */
  lemma DroppableExactlyWhenClosed(t: Table)
    ensures DroppableByAdder(t) <==> Closed(t)
  {
    if Closed(t) {
      ClosedDrops(t);
    } else {
      OpenSpoils(t);
    }
  }

  // ----- the encoder

  /** What libvpx returns for one frame: an error, or the coded frame, or nothing. */
  datatype Encoded<D> = EncodeError | Coded(data: D, last: Update, golden: Update, altref: Update) | NoPacket

  /** The literal table of layer ids is the binary hierarchy. */
  lemma IdsAreLayered(k: nat)
    requires k < PERIOD
    ensures [0, 4, 3, 4, 2, 4, 3, 4, 1, 4, 3, 4, 2, 4, 3, 4][k] == LayerId(k)
  {
  }

  const ODD: seq<nat> := [1, 3, 5, 7, 9, 11, 13, 15]
  const TWICE_ODD: seq<nat> := [2, 6, 10, 14]

  lemma PlacesAreLayered(k: nat)
    requires k < PERIOD
    ensures k in ODD <==> k % 2 == 1
    ensures k in TWICE_ODD <==> k % 4 == 2
  {
    if k % 2 == 1 {
      assert k == ODD[k / 2];
    }
    if k % 4 == 2 {
      assert k == TWICE_ODD[k / 4];
    }
  }

  /** A chained assignment to the listed places. */
  method SetAll(flags: array<Flags>, places: seq<nat>, v: Flags)
    requires forall p :: p in places ==> p < flags.Length
    modifies flags
    ensures forall k :: 0 <= k < flags.Length ==> flags[k] == if k in places then v else old(flags[k])
  {
    for i := 0 to |places|
      invariant forall k :: 0 <= k < flags.Length ==> flags[k] == if k in places[..i] then v else old(flags[k])
    {
      assert places[i] in places;
      flags[places[i]] := v;
      assert places[..i + 1] == places[..i] + [places[i]];
    }
    assert places[..|places|] == places;
  }

  method FillFlags(flags: array<Flags>)
    requires flags.Length == PERIOD && flags[0] == FORCE_KF
    modifies flags
    ensures forall k :: 0 <= k < PERIOD ==> flags[k] == LayerFlags(k)
  {
    SetAll(flags, ODD, NO_UPDATES);
    SetAll(flags, TWICE_ODD, UPDATE_LAST);
    flags[4], flags[12] := UPDATE_LAST_GOLDEN, UPDATE_LAST_GOLDEN;
    flags[8] := FROM_ALTREF;
    forall k | 0 <= k < PERIOD
      ensures flags[k] == LayerFlags(k)
    {
      PlacesAreLayered(k);
    }
  }

  class VideoEncoder<D(!new)> {
    var layerFlags: array<Flags>
    var layerId: array<nat>
    var frameInputCnt: nat
    var frameOutputCnt: nat
    var timestampTick: nat
    var outFile: seq<seq<Frame<D>>>   // result_0.ivf to result_4.ivf, the files of a debug build

    ghost predicate Valid()
      reads this, layerFlags, layerId
    {
      layerFlags.Length == layerId.Length == PERIOD && |outFile| == LAYERS &&
      (forall k :: 0 <= k < PERIOD ==> layerFlags[k] == LayerFlags(k) && layerId[k] == LayerId(k)) &&
      (forall l :: 0 <= l < LAYERS ==> outFile[l] == UpTo(Vp8, outFile[LAYERS - 1], l))
    }

    constructor ()
      ensures Valid() && fresh(layerFlags) && fresh(layerId)
      ensures frameInputCnt == 0 && outFile == seq(5, _ => [])
    {
      layerFlags := new Flags[16](_ => FORCE_KF);
      layerId := new nat[] [0, 4, 3, 4, 2, 4, 3, 4, 1, 4, 3, 4, 2, 4, 3, 4];
      frameInputCnt, frameOutputCnt, timestampTick := 0, 0, 0;
      outFile := seq(5, _ => []);
      new;
      FillFlags(layerFlags);
      forall k | 0 <= k < PERIOD
        ensures layerFlags[k] == LayerFlags(k) && layerId[k] == LayerId(k)
      {
        IdsAreLayered(k);
      }
    }

    /**
     Encodes one picture with the flags of its place in the period. Every layer file from
     the frame's own layer up gets the frame; an encoder error leaves everything as it was.
     */
    method EncodeAFrame(inputLength: nat, codec: Encoded<D>) returns (result: Option<Frame<D>>, isKey: bool)
      requires Valid()
      modifies this
      ensures Valid() && layerFlags == old(layerFlags) && layerId == old(layerId)
      ensures result.Some? <==> inputLength > 0 && codec.Coded?
      ensures result.Some? ==>
                result.value ==
                    Frame(old(frameInputCnt) % PERIOD, codec.data, codec.last, codec.golden, codec.altref) &&
                isKey == (result.value.phase == 0)
      ensures outFile[LAYERS - 1] == old(outFile[LAYERS - 1]) + (if result.Some? then [result.value] else [])
      ensures frameInputCnt == old(frameInputCnt) + (if inputLength > 0 && !codec.EncodeError? then 1 else 0)
    {
      result, isKey := None, false;
      if inputLength > 0 && !codec.EncodeError? {
        var phase := frameInputCnt % PERIOD;
        var flags := layerFlags[phase];
        if codec.Coded? {
          var f := Frame(phase, codec.data, codec.last, codec.golden, codec.altref);
          AppendFrame(f, layerId[phase]);
          isKey := flags == FORCE_KF;
          result := Some(f);
          frameOutputCnt := frameOutputCnt + 1;
        }
        timestampTick := timestampTick + 1;
        frameInputCnt := frameInputCnt + 1;
      }
    }

    method AppendFrame(f: Frame<D>, from: nat)
      requires Valid() && from == LayerId(f.phase)
      modifies `outFile
      ensures Valid() && outFile[LAYERS - 1] == old(outFile[LAYERS - 1]) + [f]
    {
      ghost var before := outFile;
      for i := from to LAYERS
        invariant |outFile| == LAYERS
        invariant forall l :: 0 <= l < LAYERS ==> outFile[l] == before[l] + (if from <= l < i then [f] else [])
      {
        outFile := outFile[i := outFile[i] + [f]];
      }
      forall l | 0 <= l < LAYERS
        ensures outFile[l] == UpTo(Vp8, outFile[LAYERS - 1], l)
      {
        UpToSnoc(before[LAYERS - 1], f, l);
      }
    }

    /** Any of the five files, given to a decoder, shows the pictures the whole stream would show for its frames. */
    lemma FilesDecodeAlike<P(!new)>(dec: Decode<D, P>, r: Refs<P>, bound: nat)
      requires Valid() && bound < LAYERS && AllObey(Vp8, outFile[LAYERS - 1])
      ensures var all := outFile[LAYERS - 1];
              Pictures(Vp8, dec, r, outFile[bound]) == PicturesUpTo(Vp8, all, Pictures(Vp8, dec, r, all), bound)
    {
      Vp8Closed();
      LayersDroppable(Vp8, dec, outFile[LAYERS - 1], r, r, bound);
    }
  }

  lemma {:induction false} UpToSnoc<D>(fs: seq<Frame<D>>, f: Frame<D>, bound: nat)
    ensures UpTo(Vp8, fs + [f], bound) == UpTo(Vp8, fs, bound) + (if LayerId(f.phase) <= bound then [f] else [])
    decreases |fs|
  {
    if fs == [] {
      assert fs + [f] == [f];
      assert UpTo(Vp8, [f][1..], bound) == [];
    } else {
      assert (fs + [f])[0] == fs[0] && (fs + [f])[1..] == fs[1..] + [f];
      UpToSnoc(fs[1..], f, bound);
      ConcatAssoc(if LayerId(fs[0].phase) <= bound then [fs[0]] else [], UpTo(Vp8, fs[1..], bound),
                  if LayerId(f.phase) <= bound then [f] else []);
    }
  }

  /**
   The table of flags in full: place 0 forces a key frame; odd places update nothing; places 2, 6,
   10 and 14 only the last frame; 4 and 12 refer to golden and altref and update last and golden;
   place 8 refers to altref only and updates what it likes.
   */
  lemma FlagsInFull(k: nat)
    requires k < PERIOD
    ensures var f := LayerFlags(k);
            if k == 0 then f == Flags(true, false, false, false, false, false, false)
            else if k % 2 == 1 then f == Flags(false, false, false, false, true, true, true)
            else if k % 4 == 2 then f == Flags(false, false, false, false, false, true, true)
            else if k == 8 then f == Flags(false, true, true, false, false, false, false)
            else f == Flags(false, true, false, false, false, false, true)
    ensures LayerFlags(k + PERIOD) == LayerFlags(k)
  {
  }
}

/** How long a PCM reply stays silent before speech starts, measured frame by frame as chunks arrive. */
module LeadingSilence {
  import opened Collections
  import opened Workflow

  const SILENCE_RMS_THRESHOLD := 184
  const FRAME_MS := 10
  const MAX_ANALYSIS_MS := 3000

  type Byte = b: int | 0 <= b < 256

  function Sample(low: Byte, high: Byte): int {
    var raw := low + 256 * high;
    if raw >= 0x8000 then raw - 0x1_0000 else raw
  }

  /** Two's complement: the one 16-bit value whose low and high byte these are. */
  lemma SampleIsTwosComplement(low: Byte, high: Byte, value: int)
    requires -32768 <= value < 32768
    ensures Sample(low, high) == value <==> (value % 256 == low && (value / 256) % 256 == high)
    ensures -32768 <= Sample(low, high) < 32768
  {
  }

  /** Little-endian 16-bit samples; an odd byte at the end is dropped. */
  function Decode(pcm: seq<Byte>): (r: seq<int>)
    ensures |r| == |pcm| / 2
    ensures forall i :: 0 <= i < |r| ==> r[i] == Sample(pcm[2 * i], pcm[2 * i + 1])
  {
    seq(|pcm| / 2, i requires 0 <= i < |pcm| / 2 => Sample(pcm[2 * i], pcm[2 * i + 1]))
  }

  function SumOfSquares(frame: seq<int>): nat {
    if frame == [] then 0 else frame[0] * frame[0] + SumOfSquares(frame[1..])
  }

  /** Root mean square above the threshold, squared out. */
  predicate Loud(frame: seq<int>) {
    SumOfSquares(frame) > SILENCE_RMS_THRESHOLD * SILENCE_RMS_THRESHOLD * |frame|
  }

  /** A frame is loud when every sample is further from zero than 184, and silent when none is. */
  lemma {:induction false} LoudnessByAmplitude(frame: seq<int>)
    ensures frame != [] && (forall i :: 0 <= i < |frame| ==> frame[i] > 184 || frame[i] < -184) ==> Loud(frame)
    ensures (forall i :: 0 <= i < |frame| ==> -184 <= frame[i] <= 184) ==> !Loud(frame)
  {
    if forall i :: 0 <= i < |frame| ==> frame[i] > 184 || frame[i] < -184 {
      SquaresAbove(frame);
    }
    if forall i :: 0 <= i < |frame| ==> -184 <= frame[i] <= 184 {
      SquaresWithin(frame);
    }
  }

  lemma {:induction false} SquaresAbove(frame: seq<int>)
    requires forall i :: 0 <= i < |frame| ==> frame[i] > 184 || frame[i] < -184
    ensures SumOfSquares(frame) >= 33856 * |frame| + |frame|
  {
    if frame != [] {
      SquareOf(frame[0]);
      SquaresAbove(frame[1..]);
    }
  }

  lemma {:induction false} SquaresWithin(frame: seq<int>)
    requires forall i :: 0 <= i < |frame| ==> -184 <= frame[i] <= 184
    ensures SumOfSquares(frame) <= 33856 * |frame|
  {
    if frame != [] {
      SquareOf(frame[0]);
      SquaresWithin(frame[1..]);
    }
  }

  lemma SquareOf(x: int)
    ensures -184 <= x <= 184 ==> x * x <= 33856
    ensures x > 184 || x < -184 ==> x * x > 33856
  {
    if -184 <= x <= 184 {
      assert (184 - x) * (184 + x) >= 0;
    } else if x > 184 {
      assert (x - 184) * (x + 184) > 0;
    } else {
      assert (-x - 184) * (184 - x) > 0;
    }
  }

  /** The meter's fields: samples short of a frame, silent frames so far, and the result once known. */
  datatype Meter = Meter(carry: seq<int>, silentFrames: nat, resultMs: Option<nat>)

  /** Works through complete frames until speech, the cap, or the end of the samples. */
  function Analyse(samples: seq<int>, size: nat, silent: nat): Meter
    requires size > 0
  {
    if |samples| < size then Meter(samples, silent, None)
    else if Loud(samples[..size]) then Meter(samples[size..], silent, Some(Min(silent * FRAME_MS, MAX_ANALYSIS_MS)))
    else if (silent + 1) * FRAME_MS >= MAX_ANALYSIS_MS then Meter(samples[size..], silent + 1, Some(MAX_ANALYSIS_MS))
    else Analyse(samples[size..], size, silent + 1)
  }

  function Fed(m: Meter, size: nat, pcm: seq<Byte>): Meter
    requires size > 0
  {
    if m.resultMs.Some? then m else Analyse(m.carry + Decode(pcm), size, m.silentFrames)
  }

  const NEW_METER := Meter([], 0, None)

  function FedAll(m: Meter, size: nat, chunks: seq<seq<Byte>>): Meter
    requires size > 0
    decreases |chunks|
  {
    if chunks == [] then m else FedAll(Fed(m, size, chunks[0]), size, chunks[1..])
  }

  function Concat(chunks: seq<seq<Byte>>): seq<Byte> {
    if chunks == [] then [] else chunks[0] + Concat(chunks[1..])
  }

  class LeadingSilenceMeter {
    const frameSamples: nat
    var carry: seq<int>
    var silentFrames: nat
    var resultMs: Option<nat>

    constructor (sampleRate: nat)
      requires sampleRate >= 100
      ensures frameSamples == sampleRate * FRAME_MS / 1000 > 0 && Abs() == NEW_METER
    {
      frameSamples := sampleRate * FRAME_MS / 1000;
      carry, silentFrames, resultMs := [], 0, None;
    }

    ghost function Abs(): Meter
      reads this
    {
      Meter(carry, silentFrames, resultMs)
    }

    function SilenceMs(): nat
      reads this
    {
      Min(silentFrames * FRAME_MS, MAX_ANALYSIS_MS)
    }

    method Feed(pcm: seq<Byte>)
      requires frameSamples > 0
      modifies this
      ensures Abs() == Fed(old(Abs()), frameSamples, pcm)
    {
      hide Loud, Decode;
      if resultMs.Some? {
        return;
      }
      carry := carry + Decode(pcm);
      var size, offset := frameSamples, 0;
      ghost var whole := Analyse(carry, size, silentFrames);
      assert carry[0..] == carry;
      while |carry| - offset >= size
        invariant offset <= |carry| && carry == old(carry) + Decode(pcm)
        invariant resultMs.None? && Analyse(carry[offset..], size, silentFrames) == whole
        decreases |carry| - offset
      {
        var frame := carry[offset..offset + size];
        assert frame == carry[offset..][..size] && carry[offset..][size..] == carry[offset + size..];
        offset := offset + size;
        if Loud(frame) {
          resultMs := Some(SilenceMs());
          break;
        }
        silentFrames := silentFrames + 1;
        if silentFrames * FRAME_MS >= MAX_ANALYSIS_MS {
          resultMs := Some(MAX_ANALYSIS_MS);
          break;
        }
      }
      carry := carry[offset..];
    }
  }

  /** Pausing between two stretches of samples makes no difference. */
  lemma {:induction false} AnalyseInTwo(a: seq<int>, b: seq<int>, size: nat, silent: nat)
    requires size > 0
    ensures var first, whole := Analyse(a, size, silent), Analyse(a + b, size, silent);
            if first.resultMs.Some? then whole.resultMs == first.resultMs && whole.silentFrames == first.silentFrames
            else whole == Analyse(first.carry + b, size, first.silentFrames)
    decreases |a|
  {
    if |a| >= size {
      assert (a + b)[..size] == a[..size] && (a + b)[size..] == a[size..] + b;
      if !Loud(a[..size]) && (silent + 1) * FRAME_MS < MAX_ANALYSIS_MS {
        AnalyseInTwo(a[size..], b, size, silent + 1);
      }
    }
  }

  /** Even-length chunks decode one by one. */
  lemma DecodeInTwo(a: seq<Byte>, b: seq<Byte>)
    requires |a| % 2 == 0
    ensures Decode(a + b) == Decode(a) + Decode(b)
  {
    var whole, parts := Decode(a + b), Decode(a) + Decode(b);
    assert |whole| == |parts|;
    forall i | 0 <= i < |whole| ensures whole[i] == parts[i] {
      if i >= |a| / 2 {
        assert (a + b)[2 * i] == b[2 * (i - |a| / 2)] && (a + b)[2 * i + 1] == b[2 * (i - |a| / 2) + 1];
      }
    }
  }

  ghost predicate EvenChunks(chunks: seq<seq<Byte>>) {
    forall i :: 0 <= i < |chunks| ==> |chunks[i]| % 2 == 0
  }

  /** What a meter makes of more chunks depends on their concatenation only. */
  lemma {:induction false} ChunksAsOne(m: Meter, size: nat, chunks: seq<seq<Byte>>)
    requires size > 0 && EvenChunks(chunks) && m.resultMs.None? && Analyse(m.carry, size, m.silentFrames) == m
    ensures FedAll(m, size, chunks).resultMs == Analyse(m.carry + Decode(Concat(chunks)), size, m.silentFrames).resultMs
    decreases |chunks|
  {
    hide Analyse;
    if chunks == [] {
      assert m.carry + Decode([]) == m.carry;
    } else {
      var first, rest := chunks[0], Concat(chunks[1..]);
      var m' := Fed(m, size, first);
      DecodeInTwo(first, rest);
      assert m.carry + (Decode(first) + Decode(rest)) == m.carry + Decode(first) + Decode(rest);
      AnalyseInTwo(m.carry + Decode(first), Decode(rest), size, m.silentFrames);
      if m'.resultMs.Some? {
        SettledStays(m', size, chunks[1..]);
      } else {
        PausedIsStable(m.carry + Decode(first), size, m.silentFrames);
        ChunksAsOne(m', size, chunks[1..]);
      }
    }
  }

  lemma {:induction false} SettledStays(m: Meter, size: nat, chunks: seq<seq<Byte>>)
    requires size > 0 && m.resultMs.Some?
    ensures FedAll(m, size, chunks) == m
    decreases |chunks|
  {
    if chunks != [] {
      SettledStays(m, size, chunks[1..]);
    }
  }

  lemma {:induction false} PausedIsStable(samples: seq<int>, size: nat, silent: nat)
    requires size > 0
    ensures var m := Analyse(samples, size, silent); m.resultMs.None? ==> Analyse(m.carry, size, m.silentFrames) == m
    decreases |samples|
  {
    if |samples| >= size && !Loud(samples[..size]) && (silent + 1) * FRAME_MS < MAX_ANALYSIS_MS {
      PausedIsStable(samples[size..], size, silent + 1);
    }
  }

  /** Chunking independence: any split into even-length chunks gives the result of the whole stream. */
  lemma ChunkingDoesNotMatter(size: nat, chunks: seq<seq<Byte>>)
    requires size > 0 && EvenChunks(chunks)
    ensures FedAll(NEW_METER, size, chunks).resultMs == Fed(NEW_METER, size, Concat(chunks)).resultMs
  {
    ChunksAsOne(NEW_METER, size, chunks);
    assert [] + Decode(Concat(chunks)) == Decode(Concat(chunks));
  }

  /** The k-th complete frame is there, and all before it are silent. */
  ghost predicate SilentUpTo(samples: seq<int>, size: nat, k: nat)
    requires size > 0
    decreases k
  {
    k == 0 || (|samples| >= size && !Loud(samples[..size]) && SilentUpTo(samples[size..], size, k - 1))
  }

  ghost predicate FirstLoud(samples: seq<int>, size: nat, k: nat)
    requires size > 0
    decreases k
  {
    && |samples| >= size
    && if k == 0 then Loud(samples[..size]) else !Loud(samples[..size]) && FirstLoud(samples[size..], size, k - 1)
  }

  /** The result is ten milliseconds times the index of the first loud frame, and the cap when 300 frames are silent. */
  lemma {:induction false} ResultIsFirstLoud(samples: seq<int>, size: nat, silent: nat, k: nat)
    requires size > 0 && silent < 300
    ensures var r := Analyse(samples, size, silent).resultMs;
            && (k < 300 - silent && FirstLoud(samples, size, k) ==> r == Some((silent + k) * 10))
            && (SilentUpTo(samples, size, 300 - silent) ==> r == Some(3000))
            && (r == Some((silent + k) * 10) && k < 300 - silent ==> FirstLoud(samples, size, k))
            && (r == Some(3000) ==> SilentUpTo(samples, size, 300 - silent))
            && (r.Some? ==> r.value % 10 == 0 && silent * 10 <= r.value <= 3000)
    decreases 300 - silent
  {
    hide Loud;
    if |samples| >= size && !Loud(samples[..size]) && silent + 1 < 300 {
      ResultIsFirstLoud(samples[size..], size, silent + 1, if k > 0 then k - 1 else 0);
    }
  }

  /** A split inside a sample loses bytes: the same stream, another result. */
  lemma OddChunksMatter()
    ensures Concat([[0], [2, 0, 2]]) == [0, 2, 0, 2]
    ensures FedAll(NEW_METER, 2, [[0], [2, 0, 2]]).resultMs == None
    ensures Fed(NEW_METER, 2, [0, 2, 0, 2]).resultMs == Some(0)
  {
    hide Analyse, Decode, Loud, SumOfSquares;
    var a: seq<Byte>, b: seq<Byte> := [0], [2, 0, 2];
    assert [a, b][1..] == [b] && [b][1..] == [];
    assert Concat([b]) == b;
    NothingDecoded();
    var m1, m2 := Fed(NEW_METER, 2, a), Fed(Fed(NEW_METER, 2, a), 2, b);
    assert FedAll(m2, 2, []) == m2;
    assert FedAll(m1, 2, [b]) == m2;
    TwoLoudSamples();
  }

  lemma NothingDecoded()
    ensures Analyse([] + Decode([0]), 2, 0) == NEW_METER
    ensures Analyse([] + Decode([2, 0, 2]), 2, 0).resultMs == None
  {
    assert Decode([0]) == [];
  }

  lemma TwoLoudSamples()
    ensures Analyse([] + Decode([0, 2, 0, 2]), 2, 0).resultMs == Some(0)
  {
    var frame := [512, 512];
    var pcm: seq<Byte> := [0, 2, 0, 2];
    assert Decode(pcm)[0] == Sample(pcm[0], pcm[1]) == 512 && Decode(pcm)[1] == Sample(pcm[2], pcm[3]) == 512;
    assert [] + Decode(pcm) == frame && frame[..2] == frame;
    assert frame[1..] == [512] && [512][1..] == [];
    assert SumOfSquares([512]) == 262144 && SumOfSquares(frame) == 524288;
  }
}

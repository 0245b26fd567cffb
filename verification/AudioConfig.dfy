/** The two bytes of an AAC configuration, and what is read of them. */
module AudioConfig {
  import opened Options
  import opened Bytes

  datatype Sound = Sound(rate: UInt32, channels: byte)

  const RATES: seq<UInt32> :=
    [96000, 88200, 64000, 48000, 44100, 32000, 24000, 22050, 16000, 12000, 11025, 8000, 7350, 48000, 48000]

  /** ReadAudioConfig: of the rate's index only three bits are taken. */
  function ReadConfig(data: seq<byte>): Option<Sound>
  {
    if |data| < 2 || data[0] / 8 == 0 then None
    else Some(Sound(RATES[data[0] % 4 * 2 + data[1] / 0x80], data[1] / 8 % 16))
  }

  /** WriteAudioConfig: object type, rate index and channels. */
  function WriteConfig(kind: byte, index: byte, channels: byte): (data: seq<byte>)
    ensures |data| == 2
  {
    [kind % 32 * 8 + index % 16 / 2, index % 2 * 0x80 + channels % 16 * 8]
  }

  /** RateToIndex looks for the least rate that is no smaller; beyond the greatest it takes
      the least of all. */
  function RateToIndex(rate: UInt32): (index: byte)
    ensures index <= 12
  {
    if rate > 96000 then 12 else IndexFrom(rate, 12)
  }

  function IndexFrom(rate: UInt32, k: byte): (index: byte)
    requires k <= 12
    ensures index <= k
  {
    if k == 0 || rate <= RATES[k] then k else IndexFrom(rate, k - 1)
  }

  /** A rate of the table has its own index; another that of the next greater one, but
      beyond the table the index of 7350. */
  lemma IndexIs(rate: UInt32)
    ensures var found := RATES[RateToIndex(rate)];
      if rate > 96000 then found == 7350
      else found >= rate && forall i :: 0 <= i < 13 && RATES[i] >= rate ==> found <= RATES[i]
  {
    if rate <= 96000 {
      IndexLeast(rate, 12);
    }
  }

  lemma {:induction false} IndexLeast(rate: UInt32, k: byte)
    requires k <= 12 && rate <= 96000 && forall i :: k < i < 13 ==> RATES[i] < rate
    ensures var found := RATES[IndexFrom(rate, k)];
      found >= rate && forall i :: 0 <= i < 13 && RATES[i] >= rate ==> found <= RATES[i]
  {
    if k > 0 && rate > RATES[k] {
      IndexLeast(rate, k - 1);
    }
  }

  lemma ConfigBits(kind: byte, index: byte, channels: byte)
    requires 0 < kind < 32 && index <= 12 && channels < 16
    ensures ReadConfig(WriteConfig(kind, index, channels)) == Some(Sound(RATES[index % 8], channels))
  {
    var data := WriteConfig(kind, index, channels);
    assert data[0] == kind * 8 + index / 2;
    assert data[1] == index % 2 * 0x80 + channels * 8;
    LowBits(index);
    assert data[0] / 8 == kind && data[0] % 4 == index / 2 % 4 by {
      assert kind * 8 == 4 * (kind * 2);
    }
    assert data[1] / 8 == index % 2 * 16 + channels;
  }

  lemma LowBits(index: byte)
    requires index <= 12
    ensures index / 2 < 8 && index / 2 % 4 * 2 + index % 2 == index % 8
  {
  }

  /** A written configuration is read with its rate if and only if that is one of the eight
      greatest of the table; the channels always come back. */
  lemma ConfigReadsExactly(kind: byte, rate: UInt32, channels: byte)
    requires 0 < kind < 32 && channels < 16
    ensures var read := ReadConfig(WriteConfig(kind, RateToIndex(rate), channels));
      && read.Some? && read.value.channels == channels
      && (read.value.rate == rate <==> rate in RATES[..8])
  {
    hide ReadConfig, WriteConfig;
    IndexIs(rate);
    ConfigBits(kind, RateToIndex(rate), channels);
    var index := RateToIndex(rate);
    Wrapped(index);
    if rate in RATES[..8] {
      var i :| 0 <= i < 8 && RATES[..8][i] == rate;
      assert RATES[i] >= rate;
    }
    assert index < 8 ==> RATES[..8][index] == RATES[index];
  }

  lemma Wrapped(index: byte)
    requires index <= 12
    ensures index < 8 ==> index % 8 == index
    ensures index >= 8 ==> RATES[index % 8] >= 44100 && RATES[index] <= 16000
    ensures forall i :: 0 <= i < 8 ==> 22050 <= RATES[i] <= 96000
  {
  }
}

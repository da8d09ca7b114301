/**
 Stream settings and the SETTINGS frame: a list of (16-bit id, 32-bit value) pairs in big-endian
 bytes, merged into the current settings one by one.
 */
module Settings {
  import opened Common

  type U16 = n: int | 0 <= n < 0x1_0000
  type U32 = n: int | 0 <= n < 0x1_0000_0000

  datatype Setting = Setting(id: U16, value: U32)

  // ---------- Bytes ----------

  function U16Bytes(n: U16): (b: seq<Byte>)
    ensures |b| == 2
  {
    [(n / 256) as Byte, (n % 256) as Byte]
  }

  function U32Bytes(n: U32): (b: seq<Byte>)
    ensures |b| == 4
  {
    U16Bytes(n / 0x1_0000) + U16Bytes(n % 0x1_0000)
  }

  function ReadU16(b: seq<Byte>): U16
    requires |b| >= 2
  {
    (b[0] as int) * 256 + b[1] as int
  }

  function ReadU32(b: seq<Byte>): U32
    requires |b| >= 4
  {
    ((b[0] as int) * 256 + b[1] as int) * 0x1_0000 + ((b[2] as int) * 256 + b[3] as int)
  }

  lemma U16RoundTrip(n: U16, b: seq<Byte>)
    requires |b| >= 2
    ensures ReadU16(U16Bytes(n)) == n
    ensures U16Bytes(ReadU16(b)) == b[..2]
  {
  }

  lemma U32RoundTrip(n: U32, b: seq<Byte>)
    requires |b| >= 4
    ensures ReadU32(U32Bytes(n)) == n
    ensures U32Bytes(ReadU32(b)) == b[..4]
  {
    var high: int, low: int := ReadU16(b), ReadU16(b[2..]);
    assert ReadU32(b) == high * 0x1_0000 + low;
    assert ReadU32(b) / 0x1_0000 == high && ReadU32(b) % 0x1_0000 == low;
    U16RoundTrip(high, b);
    U16RoundTrip(low, b[2..]);
    assert b[..4] == b[..2] + b[2..][..2];
    var c := U32Bytes(n);
    assert c[..2] == U16Bytes(n / 0x1_0000) && c[2..] == U16Bytes(n % 0x1_0000);
    U16RoundTrip(n / 0x1_0000, c);
    U16RoundTrip(n % 0x1_0000, c[2..]);
  }

  // ---------- Frames ----------

  function BuildFrame(ss: seq<Setting>): seq<Byte>
  {
    if ss == [] then [] else U16Bytes(ss[0].id) + U32Bytes(ss[0].value) + BuildFrame(ss[1..])
  }

  /** Reads pairs until the input is used up; a rest of fewer than six bytes is an error. */
  function ParseFrame(b: seq<Byte>): Option<seq<Setting>>
  {
    if b == [] then Some([])
    else if |b| < 6 then None
    else
      Prepend([Setting(ReadU16(b), ReadU32(b[2..]))], ParseFrame(b[6..]))
  }

  function Prepend(list: seq<Setting>, rest: Option<seq<Setting>>): Option<seq<Setting>>
  {
    match rest
    case None => None
    case Some(ss) => Some(list + ss)
  }

  lemma PrependNothing(rest: Option<seq<Setting>>)
    ensures Prepend([], rest) == rest
  {
    if rest.Some? {
      assert [] + rest.value == rest.value;
    }
  }

  lemma PrependTwice(a: seq<Setting>, b: seq<Setting>, rest: Option<seq<Setting>>)
    ensures Prepend(a, Prepend(b, rest)) == Prepend(a + b, rest)
  {
    if rest.Some? {
      assert a + (b + rest.value) == (a + b) + rest.value;
    }
  }

  lemma {:induction false} ParseBuild(ss: seq<Setting>)
    ensures ParseFrame(BuildFrame(ss)) == Some(ss)
  {
    if ss == [] {
    } else {
      ParseBuild(ss[1..]);
      var b := BuildFrame(ss);
      assert b[6..] == BuildFrame(ss[1..]);
      assert b[..2] == U16Bytes(ss[0].id) && b[2..][..4] == U32Bytes(ss[0].value);
      U16RoundTrip(ss[0].id, b);
      U32RoundTrip(ss[0].value, b[2..]);
      assert [ss[0]] + ss[1..] == ss;
    }
  }

  /** Parsing succeeds exactly on whole pairs, and loses nothing. */
  lemma {:induction false} BuildParse(b: seq<Byte>)
    ensures ParseFrame(b).Some? <==> |b| % 6 == 0
    ensures ParseFrame(b).Some? ==> BuildFrame(ParseFrame(b).value) == b
  {
    if b == [] || |b| < 6 {
    } else {
      BuildParse(b[6..]);
      if ParseFrame(b).Some? {
        var ss := ParseFrame(b).value;
        U16RoundTrip(ss[0].id, b);
        U32RoundTrip(ss[0].value, b[2..]);
        assert ss[1..] == ParseFrame(b[6..]).value;
        assert b == b[..2] + b[2..][..4] + b[6..];
      }
    }
  }

  /** The parser's loop over the remaining input. */
  method ParseSettingsFrame(input: seq<Byte>) returns (r: Option<seq<Setting>>)
    ensures r == ParseFrame(input)
  {
    var rest, list := input, [];
    PrependNothing(ParseFrame(input));
    while rest != []
      invariant ParseFrame(input) == Prepend(list, ParseFrame(rest))
      decreases |rest|
    {
      if |rest| < 6 {
        return None;
      }
      var s := Setting(ReadU16(rest), ReadU32(rest[2..]));
      PrependTwice(list, [s], ParseFrame(rest[6..]));
      list, rest := list + [s], rest[6..];
    }
    assert list + [] == list;
    r := Some(list);
  }

  // ---------- The layout on the wire ----------

  /** One setting is six bytes, the identifier and the value with the most significant byte first. */
  lemma SettingLayout(s: Setting)
    ensures var b := BuildFrame([s]);
            && |b| == 6
            && s.id == 256 * b[0] as int + b[1] as int
            && s.value == 0x100_0000 * b[2] as int + 0x1_0000 * b[3] as int + 256 * b[4] as int + b[5] as int
  {
    var b, six := BuildFrame([s]), U16Bytes(s.id) + U32Bytes(s.value);
    assert [s][1..] == [] && [s][0] == s;
    assert BuildFrame([s][1..]) == [];
    assert b == six + [];
    assert six + [] == six;
    assert b[2..4] == U16Bytes(s.value / 0x1_0000) && b[4..6] == U16Bytes(s.value % 0x1_0000);
    assert b[2] == b[2..4][0] && b[3] == b[2..4][1] && b[4] == b[4..6][0] && b[5] == b[4..6][1];
  }

  lemma {:induction false} FrameIsConcatenation(a: seq<Setting>, b: seq<Setting>)
    ensures BuildFrame(a + b) == BuildFrame(a) + BuildFrame(b)
  {
    if a == [] {
      assert a + b == b;
    } else {
      FrameIsConcatenation(a[1..], b);
      assert (a + b)[1..] == a[1..] + b;
    }
  }

  // ---------- Merging ----------

  datatype StreamSettings = StreamSettings(maxStreams: U32, maxData: U32, idleTimeout: U16, pqSupported: bool)

  /** Overrides one setting; the timeout is truncated to 16 bits and unknown ids are ignored. */
  function ApplyOne(s: StreamSettings, x: Setting): StreamSettings
  {
    match x.id
    case 1 => s.(maxStreams := x.value)
    case 2 => s.(maxData := x.value)
    case 3 => s.(idleTimeout := x.value % 0x1_0000)
    case 4 => s.(pqSupported := x.value != 0)
    case _ => s
  }

  function Apply(s: StreamSettings, frame: seq<Setting>): StreamSettings
  {
    if frame == [] then s else ApplyOne(Apply(s, frame[..|frame| - 1]), frame[|frame| - 1])
  }

  function ToFrame(s: StreamSettings): seq<Setting>
  {
    [Setting(1, s.maxStreams), Setting(2, s.maxData), Setting(3, s.idleTimeout),
     Setting(4, if s.pqSupported then 1 else 0)]
  }

  /** The bytes a peer is sent. */
  function Encode(s: StreamSettings): seq<Byte>
  {
    BuildFrame(ToFrame(s))
  }

  /** The last value a frame gives for an id, or a default. */
  function LastValue(frame: seq<Setting>, id: U16, default: U32): U32
  {
    if frame == [] then default
    else if frame[|frame| - 1].id == id then frame[|frame| - 1].value
    else LastValue(frame[..|frame| - 1], id, default)
  }

  /** Merging overrides exactly the settings that the frame provides, the last value of an id winning. */
  lemma {:induction false} ApplyIsLastValue(s: StreamSettings, frame: seq<Setting>)
    ensures Apply(s, frame).maxStreams == LastValue(frame, 1, s.maxStreams)
    ensures Apply(s, frame).maxData == LastValue(frame, 2, s.maxData)
    ensures Apply(s, frame).idleTimeout == LastValue(frame, 3, s.idleTimeout) % 0x1_0000
    ensures Apply(s, frame).pqSupported <==> LastValue(frame, 4, if s.pqSupported then 1 else 0) != 0
  {
    if frame == [] {
    } else {
      ApplyIsLastValue(s, frame[..|frame| - 1]);
    }
  }

  /** A peer that receives an encoded frame ends up with exactly the sender's settings, whatever it had. */
  lemma SettingsRoundTrip(s: StreamSettings, t: StreamSettings)
    ensures ParseFrame(Encode(t)) == Some(ToFrame(t))
    ensures Apply(s, ToFrame(t)) == t
  {
    ParseBuild(ToFrame(t));
    var f := ToFrame(t);
    assert f[..3][..2] == f[..2] && f[..2][..1] == f[..1] && f[..1][..0] == [];
    assert Apply(s, f[..1]) == ApplyOne(s, f[0]);
    assert Apply(s, f[..2]) == ApplyOne(Apply(s, f[..1]), f[1]);
    assert Apply(s, f[..3]) == ApplyOne(Apply(s, f[..2]), f[2]);
  }

  /** What is sent: the four settings in the order of their identifiers 1 to 4. */
  lemma EncodeLists(s: StreamSettings)
    ensures |Encode(s)| == 24
    ensures ParseFrame(Encode(s)) ==
            Some([Setting(1, s.maxStreams), Setting(2, s.maxData), Setting(3, s.idleTimeout),
                  Setting(4, if s.pqSupported then 1 else 0)])
  {
    SettingsRoundTrip(s, s);
    var f := ToFrame(s);
    assert f == [f[0]] + ([f[1]] + ([f[2]] + [f[3]]));
    FrameIsConcatenation([f[0]], [f[1]] + ([f[2]] + [f[3]]));
    FrameIsConcatenation([f[1]], [f[2]] + [f[3]]);
    FrameIsConcatenation([f[2]], [f[3]]);
    SettingLayout(f[0]);
    SettingLayout(f[1]);
    SettingLayout(f[2]);
    SettingLayout(f[3]);
  }

  lemma EncodeInjective(s: StreamSettings, t: StreamSettings)
    ensures Encode(s) == Encode(t) <==> s == t
  {
    if Encode(s) == Encode(t) {
      SettingsRoundTrip(s, s);
      SettingsRoundTrip(s, t);
    }
  }
}

/** `WSDCalculator`: the word syllable duration (WSD) of a recorded word is
    the duration of its speech divided by its syllable count. The duration
    comes from one of three measurers, chosen by name, or is the mean of all
    three when the name is none of theirs.

    The measurers' signal processing is not part of this model: each is an
    arbitrary total function of the decoded audio, the sample rate and the two
    ids. Decoding the recording is left to the caller, which passes the
    samples and the rate. Durations are reals, so the equalities below are
    exact where the program's floats would round. */
module WsdCalculator {
  import opened Wrappers

  /** What `read(recording)` returns: the samples and the sample rate. */
  datatype Audio = Audio(samples: seq<real>, rate: int)

  /** `measure(audio, sr, evaluation_id, user_id)` of one measurer. */
  type Measure = (seq<real>, int, string, string) -> real

  /** The three measurers `__init__` builds. */
  datatype Calculator = Calculator(filter: Measure, endpoint: Measure, vad: Measure)

  /** `self.measurers`, in insertion order. */
  function Measurers(c: Calculator): seq<(string, Measure)> {
    [("filter", c.filter), ("endpoint", c.endpoint), ("vad", c.vad)]
  }

  const MethodNames: set<string> := {"filter", "endpoint", "vad"}

  /** The method `calculate_wsd` uses when none is passed. */
  const DefaultMethod: string := "endpoint"

  /** `dict.get(key, None)` on a table without repeated keys. */
  function Lookup<V>(table: seq<(string, V)>, key: string): (r: Option<V>)
    ensures r.Some? <==> exists i :: 0 <= i < |table| && table[i].0 == key
    ensures r.Some? ==> exists i :: 0 <= i < |table| && table[i] == (key, r.value)
  {
    if |table| == 0 then None
    else if table[0].0 == key then Some(table[0].1)
    else
      var r := Lookup(table[1..], key);
      assert r.Some? ==> table[1..][0] == table[1];
      r
  }

  /** The sum of the measurers' outputs, as the averaging loop adds them up. */
  function Total(table: seq<(string, Measure)>, audio: Audio, evaluationId: string, userId: string): real {
    if |table| == 0 then 0.0
    else Total(table[..|table| - 1], audio, evaluationId, userId)
         + table[|table| - 1].1(audio.samples, audio.rate, evaluationId, userId)
  }

  /** The duration each method stands for, stated directly: the named
      measurer's output, or the mean of all three for any other name. */
  function Duration(c: Calculator, audio: Audio, evaluationId: string, userId: string, name: string := DefaultMethod): real {
    var f := c.filter(audio.samples, audio.rate, evaluationId, userId);
    var e := c.endpoint(audio.samples, audio.rate, evaluationId, userId);
    var v := c.vad(audio.samples, audio.rate, evaluationId, userId);
    if name == "filter" then f
    else if name == "endpoint" then e
    else if name == "vad" then v
    else (f + e + v) / 3.0
  }

  /** Dividing by a zero syllable count raises ZeroDivisionError. */
  datatype WsdError = ZeroDivision

  /** `calculate_wsd(recording, syllable_count, evaluation_id, user_id,
      method)`: the pair (wsd, duration), wsd first. */
  method CalculateWsd(c: Calculator, audio: Audio, syllableCount: int, evaluationId: string, userId: string,
                      name: string := DefaultMethod)
    returns (r: Result<(real, real), WsdError>)
    ensures r.Failure? <==> syllableCount == 0
    ensures r.Failure? ==> r.error == ZeroDivision
    ensures r.Success? ==> r.value.1 == Duration(c, audio, evaluationId, userId, name)
    ensures r.Success? ==> r.value.0 * (syllableCount as real) == r.value.1
  {
    var measurers := Measurers(c);
    var m := Lookup(measurers, name);
    LookupSelects(c, name);
    var duration: real;
    if m.None? {
      var total := 0.0;
      var i := 0;
      while i < |measurers|
        invariant 0 <= i <= |measurers|
        invariant total == Total(measurers[..i], audio, evaluationId, userId)
      {
        assert measurers[..i + 1][..i] == measurers[..i];
        total := total + measurers[i].1(audio.samples, audio.rate, evaluationId, userId);
        i := i + 1;
      }
      assert measurers[..|measurers|] == measurers;
      duration := total / (|measurers| as real);
      UnknownMethodAverages(c, audio, evaluationId, userId, name);
    } else {
      duration := m.value(audio.samples, audio.rate, evaluationId, userId);
    }
    if syllableCount == 0 {
      return Failure(ZeroDivision);
    }
    var wsd := duration / (syllableCount as real);
    return Success((wsd, duration));
  }

  /** A method name the table knows selects that measurer alone; any other
      name averages. */
  lemma LookupSelects(c: Calculator, name: string)
    ensures Lookup(Measurers(c), name).Some? <==> name in MethodNames
    ensures name == "filter" ==> Lookup(Measurers(c), name) == Some(c.filter)
    ensures name == "endpoint" ==> Lookup(Measurers(c), name) == Some(c.endpoint)
    ensures name == "vad" ==> Lookup(Measurers(c), name) == Some(c.vad)
  {
    var t := Measurers(c);
    assert t[0].0 == "filter" && t[1].0 == "endpoint" && t[2].0 == "vad";
  }

  /** With a known method only that measurer is consulted: calculators that
      agree on it agree on the duration, whatever the other two return. */
  lemma KnownMethodIgnoresOthers(c: Calculator, d: Calculator, audio: Audio, evaluationId: string, userId: string, name: string)
    requires Lookup(Measurers(c), name).Some? && Lookup(Measurers(d), name).Some?
    requires Lookup(Measurers(c), name).value(audio.samples, audio.rate, evaluationId, userId)
          == Lookup(Measurers(d), name).value(audio.samples, audio.rate, evaluationId, userId)
    ensures Duration(c, audio, evaluationId, userId, name)
         == Lookup(Measurers(c), name).value(audio.samples, audio.rate, evaluationId, userId)
    ensures Duration(c, audio, evaluationId, userId, name) == Duration(d, audio, evaluationId, userId, name)
  {
    LookupSelects(c, name);
    LookupSelects(d, name);
  }

  /** Any name outside the table, `average` among them, gives the mean of
      the three outputs. */
  lemma UnknownMethodAverages(c: Calculator, audio: Audio, evaluationId: string, userId: string, name: string)
    requires name !in MethodNames
    ensures Duration(c, audio, evaluationId, userId, name)
         == Total(Measurers(c), audio, evaluationId, userId) / 3.0
  {
    var t := Measurers(c);
    var xs, r, e, u := audio.samples, audio.rate, evaluationId, userId;
    assert t[..1][..0] == t[..0];
    assert Total(t[..1], audio, e, u) == c.filter(xs, r, e, u);
    assert t[..2][..1] == t[..1];
    assert Total(t[..2], audio, e, u) == c.filter(xs, r, e, u) + c.endpoint(xs, r, e, u);
    assert t[..2] == t[..|t| - 1];
    assert Total(t, audio, e, u) == c.filter(xs, r, e, u) + c.endpoint(xs, r, e, u) + c.vad(xs, r, e, u);
  }

  /** Leaving the method out uses the endpoint measurer alone, not the mean. */
  lemma DefaultIsEndpoint(c: Calculator, audio: Audio, evaluationId: string, userId: string)
    ensures DefaultMethod in MethodNames
    ensures Duration(c, audio, evaluationId, userId) == c.endpoint(audio.samples, audio.rate, evaluationId, userId)
  {
  }

  /** Whatever the method, the duration lies between the smallest and the
      largest of the three outputs; when they agree it is their common value. */
  lemma DurationIsBounded(c: Calculator, audio: Audio, evaluationId: string, userId: string, name: string, lo: real, hi: real)
    requires lo <= c.filter(audio.samples, audio.rate, evaluationId, userId) <= hi
    requires lo <= c.endpoint(audio.samples, audio.rate, evaluationId, userId) <= hi
    requires lo <= c.vad(audio.samples, audio.rate, evaluationId, userId) <= hi
    ensures lo <= Duration(c, audio, evaluationId, userId, name) <= hi
  {
  }

  lemma EqualOutputsAverageToThem(c: Calculator, audio: Audio, evaluationId: string, userId: string, name: string, d: real)
    requires c.filter(audio.samples, audio.rate, evaluationId, userId) == d
    requires c.endpoint(audio.samples, audio.rate, evaluationId, userId) == d
    requires c.vad(audio.samples, audio.rate, evaluationId, userId) == d
    ensures Duration(c, audio, evaluationId, userId, name) == d
  {
    DurationIsBounded(c, audio, evaluationId, userId, name, d, d);
  }
}

/**
  The sums the sensors compute from a published record: Python's `total += value`
  over the values that are not None, where an int, float or bool adds its number
  and anything else raises TypeError.
 */
module Readings {
  import opened Values
  import opened Records

  /** A sensor state: None, a number, or the TypeError a non-numeric addend raises. */
  datatype Reading = Absent | Number(x: real) | Raises

  /** The four DC channels, `powerdc1` .. `powerdc4`. */
  const DcChannels: seq<string> := ["powerdc1", "powerdc2", "powerdc3", "powerdc4"]

  /** `total += v`. */
  function AddValue(total: Reading, v: Value): (r: Reading)
    ensures total.Raises? ==> r.Raises?
  {
    if total.Number? then
      match Numeric(v)
      case Some(y) => Number(total.x + y)
      case None => Raises
    else Raises
  }

  /** `total += t` for a partial total `t` that may itself have raised. */
  function Plus(total: Reading, t: Reading): (r: Reading)
    ensures r.Number? <==> total.Number? && t.Number?
  {
    if total.Number? && t.Number? then Number(total.x + t.x) else Raises
  }

  /** A value that takes part in a sum: present and not None. */
  predicate Present(r: Record, key: string) {
    Get(r, key) != Null
  }

  /** A present value on which `+` raises. */
  predicate Unaddable(r: Record, key: string) {
    Present(r, key) && Numeric(Get(r, key)).None?
  }

  /** The loop `for key in keys: v = r.get(key); if v is not None: total += v`, from 0. */
  function SumPresent(r: Record, keys: seq<string>): Reading
    decreases |keys|
  {
    if |keys| == 0 then Number(0.0)
    else
      var prior := SumPresent(r, keys[..|keys| - 1]);
      var key := keys[|keys| - 1];
      if Present(r, key) then AddValue(prior, Get(r, key)) else prior
  }

  /** The sum raises exactly when some present value is not a number; otherwise it is a number. */
  lemma {:induction false} SumPresentRaisesIff(r: Record, keys: seq<string>)
    ensures !SumPresent(r, keys).Absent?
    ensures SumPresent(r, keys).Raises? <==> exists i :: 0 <= i < |keys| && Unaddable(r, keys[i])
    decreases |keys|
  {
    if |keys| > 0 {
      var init := keys[..|keys| - 1];
      SumPresentRaisesIff(r, init);
      if exists i :: 0 <= i < |init| && Unaddable(r, init[i]) {
        var i :| 0 <= i < |init| && Unaddable(r, init[i]);
        assert keys[i] == init[i];
      }
      if exists i :: 0 <= i < |keys| && Unaddable(r, keys[i]) {
        var i :| 0 <= i < |keys| && Unaddable(r, keys[i]);
        if i < |init| {
          assert init[i] == keys[i];
        }
      }
    }
  }

  /** With nothing present the sum is 0. */
  lemma {:induction false} SumNothingPresent(r: Record, keys: seq<string>)
    requires forall i :: 0 <= i < |keys| ==> !Present(r, keys[i])
    ensures SumPresent(r, keys) == Number(0.0)
    decreases |keys|
  {
    if |keys| > 0 {
      SumNothingPresent(r, keys[..|keys| - 1]);
    }
  }

  /** Summing two runs of keys is adding their sums. */
  lemma {:induction false} SumPresentAppend(r: Record, a: seq<string>, b: seq<string>)
    ensures SumPresent(r, a + b) == Plus(SumPresent(r, a), SumPresent(r, b))
    decreases |b|
  {
    SumPresentRaisesIff(r, a);
    SumPresentRaisesIff(r, b);
    if |b| == 0 {
      assert a + b == a;
    } else {
      var init := b[..|b| - 1];
      assert (a + b)[..|a + b| - 1] == a + init;
      SumPresentAppend(r, a, init);
    }
  }

  /** The DC sum loop of the per-inverter DC-total sensors: `SumPresent` over the four channels. */
  method SumChannels(r: Record) returns (total: Reading)
    ensures total == SumPresent(r, DcChannels)
  {
    total := Number(0.0);
    var i := 0;
    while i < |DcChannels|
      invariant i <= |DcChannels|
      invariant total == SumPresent(r, DcChannels[..i])
      invariant total.Number?
    {
      assert DcChannels[..i + 1][..i] == DcChannels[..i];
      var power := Get(r, DcChannels[i]);
      if power != Null {
        total := AddValue(total, power);
        if total.Raises? {
          assert DcChannels[..i + 1] == DcChannels[..i] + [DcChannels[i]];
          SumRaisesStays(r, DcChannels, i + 1);
          return;
        }
      }
      i := i + 1;
    }
    assert DcChannels[..i] == DcChannels;
  }

  /** Once the running sum has raised, the whole sum has. */
  lemma {:induction false} SumRaisesStays(r: Record, keys: seq<string>, k: nat)
    requires k <= |keys| && SumPresent(r, keys[..k]).Raises?
    ensures SumPresent(r, keys).Raises?
  {
    SumPresentRaisesIff(r, keys[..k]);
    var i :| 0 <= i < k && Unaddable(r, keys[..k][i]);
    assert keys[i] == keys[..k][i];
    SumPresentRaisesIff(r, keys);
  }

  /** Some DC channel has a value that is not None. */
  predicate AnyChannel(r: Record) {
    exists i :: 0 <= i < |DcChannels| && Present(r, DcChannels[i])
  }

  /** Some DC channel key is in the record, even with a None value. */
  predicate AnyChannelKey(r: Record) {
    exists i :: 0 <= i < |DcChannels| && DcChannels[i] in Keys(r)
  }
}

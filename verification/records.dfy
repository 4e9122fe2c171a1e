/**
 The flattened record and the single-pass writing loop both flattening
 stages are made of: each input element yields one effect (write a key,
 skip, or throw), and the effects are applied in order to the record, the
 last write to a key winning and the first throw ending the pass.
 */
module Records {
  import opened Values

  /** The output object: string keys to values. */
  type Record = map<string, Value>

  datatype Option<T> = None | Some(value: T)

  /** `key in m ? m[key] : absent`. */
  function Get(m: Record, key: string): Option<Value>
  {
    if key in m then Some(m[key]) else None
  }

  /** The TypeError raised when `split` is called on a value that is not a string. */
  datatype Error = NotSplittable(value: Value)

  datatype Result<T> = Ok(value: T) | Err(error: Error)

  /** What one loop iteration does to the record. */
  datatype Effect = Skip | Put(key: string, value: Value) | Throw(error: Error)

  predicate Writes(e: Effect, key: string)
  {
    e.Put? && e.key == key
  }

  /** Position `i` holds the last write to `key`. */
  predicate LastWriteAt(effects: seq<Effect>, key: string, i: int)
  {
    && 0 <= i < |effects|
    && Writes(effects[i], key)
    && forall j :: i < j < |effects| ==> !Writes(effects[j], key)
  }

  predicate NeverWrites(effects: seq<Effect>, key: string)
  {
    forall i :: 0 <= i < |effects| ==> !Writes(effects[i], key)
  }

  predicate NeverThrows(effects: seq<Effect>)
  {
    forall i :: 0 <= i < |effects| ==> !effects[i].Throw?
  }

  /** Position `i` holds the first throw. */
  predicate FirstThrowAt(effects: seq<Effect>, i: int)
  {
    && 0 <= i < |effects|
    && effects[i].Throw?
    && forall j :: 0 <= j < i ==> !effects[j].Throw?
  }

  function Step(m: Record, e: Effect): Result<Record>
  {
    match e
    case Skip => Ok(m)
    case Put(key, value) => Ok(m[key := value])
    case Throw(error) => Err(error)
  }

  /**
   Runs the effects over `out` in order. The pass fails exactly when some
   effect throws; a pass that completes only ever adds keys.
   */
  function Apply(out: Record, effects: seq<Effect>): (r: Result<Record>)
    ensures r.Err? <==> !NeverThrows(effects)
    ensures r.Ok? ==> out.Keys <= r.value.Keys
    decreases |effects|
  {
    if |effects| == 0 then Ok(out)
    else
      var n := |effects| - 1;
      match Apply(out, effects[..n])
      case Err(e) => Err(e)
      case Ok(prev) => Step(prev, effects[n])
  }

  /** A failed pass fails with the error of the first effect that throws. */
  lemma {:induction false} ApplyFirstThrow(out: Record, effects: seq<Effect>)
    requires Apply(out, effects).Err?
    ensures exists i :: FirstThrowAt(effects, i) && effects[i].error == Apply(out, effects).error
    decreases |effects|
  {
    var n := |effects| - 1;
    var front := effects[..n];
    if Apply(out, front).Err? {
      ApplyFirstThrow(out, front);
      var i :| FirstThrowAt(front, i) && front[i].error == Apply(out, front).error;
      assert FirstThrowAt(effects, i);
    } else {
      assert NeverThrows(front);
      assert FirstThrowAt(effects, n);
    }
  }

  /** One more effect at the end: the pass so far, then one step unless it already failed. */
  lemma ApplySnoc(out: Record, effects: seq<Effect>, e: Effect)
    ensures Apply(out, effects + [e]) ==
      match Apply(out, effects)
      case Err(error) => Err(error)
      case Ok(m) => Step(m, e)
  {
    assert (effects + [e])[..|effects|] == effects;
  }

  /**
   Last write wins: after a completed pass, a key holds the value of the last
   effect that wrote it, and a key no effect wrote is exactly as it was in
   `out` (present with the same value, or absent).
   */
  lemma {:induction false} ApplyLastWriteWins(out: Record, effects: seq<Effect>)
    requires Apply(out, effects).Ok?
    ensures forall key, i :: LastWriteAt(effects, key, i) ==>
      Get(Apply(out, effects).value, key) == Some(effects[i].value)
    ensures forall key :: NeverWrites(effects, key) ==>
      Get(Apply(out, effects).value, key) == Get(out, key)
    decreases |effects|
  {
    if |effects| > 0 {
      var n := |effects| - 1;
      var front := effects[..n];
      ApplyLastWriteWins(out, front);
      var prev := Apply(out, front).value;
      var r := Apply(out, effects).value;
      forall key, i | LastWriteAt(effects, key, i)
        ensures Get(r, key) == Some(effects[i].value)
      {
        if i < n {
          assert LastWriteAt(front, key, i);
        }
      }
      forall key | NeverWrites(effects, key)
        ensures Get(r, key) == Get(out, key)
      {
        assert NeverWrites(front, key) by {
          forall j | 0 <= j < n ensures !Writes(front[j], key) {
            assert front[j] == effects[j];
          }
        }
        assert !Writes(effects[n], key);
      }
    }
  }

  /** A key that is written at some position is written for the last time at some position. */
  lemma {:induction false} LastWriteExists(effects: seq<Effect>, key: string, i: int)
    requires 0 <= i < |effects| && Writes(effects[i], key)
    ensures exists k :: LastWriteAt(effects, key, k)
    decreases |effects| - i
  {
    if !LastWriteAt(effects, key, i) {
      var j :| i < j < |effects| && Writes(effects[j], key);
      LastWriteExists(effects, key, j);
    }
  }

  /** A completed pass holds exactly the keys of `out` and the keys some effect writes. */
  lemma ApplyKeys(out: Record, effects: seq<Effect>)
    requires Apply(out, effects).Ok?
    ensures forall key :: key in Apply(out, effects).value <==> key in out || !NeverWrites(effects, key)
  {
    ApplyLastWriteWins(out, effects);
    forall key | !NeverWrites(effects, key)
      ensures key in Apply(out, effects).value
    {
      var i :| 0 <= i < |effects| && Writes(effects[i], key);
      LastWriteExists(effects, key, i);
    }
  }
}

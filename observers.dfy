/** `VariableObserver`, a value wrapped with pre- and post-change hooks and (for
    an int or float start value) a history of values, and `VarSet`, a named
    collection of them that renders the current values on one line. The hooks
    are arbitrary callables in the source; here the calls they receive are
    recorded as a trace. */
module Observers {
  import opened Wrappers
  import opened Text
  import opened PyValues

  /** A call of the pre-change hook (with the value being replaced) or of the
      post-change hook (with the value just set). */
  datatype HookCall = Pre(before: PyValue) | Post(after: PyValue)

  /** The hook calls a run of successive values causes: for each change, the
      pre-change hook with the old value, then the post-change hook with the new. */
  function HookTrace(trail: seq<PyValue>): (r: seq<HookCall>)
    ensures |trail| > 0 ==> |r| == 2 * (|trail| - 1)
  {
    if |trail| <= 1 then []
    else HookTrace(trail[..|trail| - 1]) + [Pre(trail[|trail| - 2]), Post(trail[|trail| - 1])]
  }

  /** The k-th change shows up as the hook pair (old value, new value). */
  lemma {:induction false} HookTraceAt(trail: seq<PyValue>, k: nat)
    requires k < |trail| - 1
    ensures |HookTrace(trail)| == 2 * (|trail| - 1)
    ensures HookTrace(trail)[2 * k] == Pre(trail[k])
    ensures HookTrace(trail)[2 * k + 1] == Post(trail[k + 1])
  {
    if k < |trail| - 2 {
      var init := trail[..|trail| - 1];
      HookTraceAt(init, k);
      assert init[k] == trail[k] && init[k + 1] == trail[k + 1];
    }
  }

  /** Successive values differ in the sense of Python's `!=`. */
  predicate Changes(trail: seq<PyValue>) {
    forall i :: 0 <= i < |trail| - 1 ==> !Equal(trail[i], trail[i + 1])
  }

  /** A change extends the run of values and its hook trace by one pair. */
  lemma ExtendTrail(trail: seq<PyValue>, v: PyValue)
    requires |trail| > 0 && Changes(trail) && !Equal(trail[|trail| - 1], v)
    ensures Changes(trail + [v])
    ensures HookTrace(trail + [v]) == HookTrace(trail) + [Pre(trail[|trail| - 1]), Post(v)]
  {
    ExtendChanges(trail, v);
    ExtendHookTrace(trail, v);
  }

  lemma ExtendChanges(trail: seq<PyValue>, v: PyValue)
    requires |trail| > 0 && Changes(trail) && !Equal(trail[|trail| - 1], v)
    ensures Changes(trail + [v])
  {
    var t := trail + [v];
    forall i | 0 <= i < |t| - 1
      ensures !Equal(t[i], t[i + 1])
    {
      if i < |trail| - 1 {
        assert t[i] == trail[i] && t[i + 1] == trail[i + 1];
      } else {
        assert t[i] == trail[|trail| - 1] && t[i + 1] == v;
      }
    }
  }

  lemma ExtendHookTrace(trail: seq<PyValue>, v: PyValue)
    requires |trail| > 0
    ensures HookTrace(trail + [v]) == HookTrace(trail) + [Pre(trail[|trail| - 1]), Post(v)]
  {
    var t := trail + [v];
    assert t[..|t| - 1] == trail;
    assert t[|t| - 2] == trail[|trail| - 1] && t[|t| - 1] == v;
  }

  class VariableObserver {
    var value: PyValue
    /** Whether a history is kept: decided once, by the type of the first value. */
    const tracked: bool
    var history: seq<PyValue>
    /** The hook calls made so far. */
    var hooks: seq<HookCall>
    /** Every value held so far, oldest first. */
    ghost var trail: seq<PyValue>

    /** The current value is the last one held; each change really changed the
        value; the hooks saw exactly the changes; the history, when kept, is the
        whole run of values. */
    ghost predicate Valid()
      reads this
    {
      |trail| > 0 && trail[|trail| - 1] == value && Changes(trail)
      && hooks == HookTrace(trail)
      && history == (if tracked then trail else [])
    }

    /** `VariableObserver(value)`: a history `[value]` exactly when the value's
        type is int or float. */
    constructor (value: PyValue)
      ensures Valid()
      ensures this.value == value && tracked == IsIntOrFloat(value)
      ensures trail == [value] && hooks == []
      ensures history == if IsIntOrFloat(value) then [value] else []
    {
      this.value := value;
      tracked := IsIntOrFloat(value);
      history := if IsIntOrFloat(value) then [value] else [];
      hooks := [];
      trail := [value];
    }

    /** `set_value(new_value)`: nothing happens when the new value equals the
        current one; otherwise pre-hook with the old value, replace, extend the
        history if kept, post-hook with the new value. */
    method SetValue(newValue: PyValue)
      requires Valid()
      modifies this
      ensures Valid()
      ensures Equal(old(value), newValue) ==>
        value == old(value) && history == old(history) && hooks == old(hooks) && trail == old(trail)
      ensures !Equal(old(value), newValue) ==>
        value == newValue && trail == old(trail) + [newValue]
        && hooks == old(hooks) + [Pre(old(value)), Post(newValue)]
        && history == if tracked then old(history) + [newValue] else old(history)
    {
      if !Equal(value, newValue) {
        ExtendTrail(trail, newValue);
        hooks := hooks + [Pre(value)];
        value := newValue;
        if tracked {
          history := history + [newValue];
        }
        trail := trail + [newValue];
        hooks := hooks + [Post(value)];
      }
    }

    /** `get_history()`: the history when one is kept; its last entry is always
        the current value. */
    method GetHistory() returns (h: Option<seq<PyValue>>)
      requires Valid()
      ensures tracked ==> h.Some? && h.value == history && |h.value| > 0 && h.value[|h.value| - 1] == value
      ensures !tracked ==> h == None
    {
      if tracked {
        h := Some(history);
      } else {
        h := None;
      }
    }
  }

  /** An observer in the state `VariableObserver(value)` leaves it in. */
  ghost predicate Initial(o: VariableObserver, value: PyValue)
    reads o
  {
    o.value == value && o.tracked == IsIntOrFloat(value) && o.trail == [value] && o.hooks == []
    && o.history == (if IsIntOrFloat(value) then [value] else [])
  }

  /** The items each followed by the separator, as the printing loop builds them. */
  function Suffixed(xs: seq<string>, sep: string): string {
    if xs == [] then "" else Suffixed(xs[..|xs| - 1], sep) + xs[|xs| - 1] + sep
  }

  /** Dropping the last separator from the loop's string gives the join. */
  lemma {:induction false} SuffixedIsJoin(xs: seq<string>, sep: string)
    requires xs != []
    ensures Suffixed(xs, sep) == Join(xs, sep) + sep
  {
    var init := xs[..|xs| - 1];
    if init == [] {
      assert xs == [xs[0]];
    } else {
      SuffixedIsJoin(init, sep);
      JoinSnoc(init, xs[|xs| - 1], sep);
      assert init + [xs[|xs| - 1]] == xs;
    }
  }

  /** One new observer per entry, in order, each as `VariableObserver(value)`
      leaves it. */
  method MakeObservers(entries: seq<(string, PyValue)>) returns (os: seq<VariableObserver>)
    ensures |os| == |entries|
    ensures forall i :: 0 <= i < |os| ==> fresh(os[i]) && os[i].Valid() && Initial(os[i], entries[i].1)
    ensures forall i, j :: 0 <= i < j < |os| ==> os[i] != os[j]
  {
    os := [];
    for k := 0 to |entries|
      invariant |os| == k
      invariant forall i :: 0 <= i < k ==> fresh(os[i]) && os[i].Valid() && Initial(os[i], entries[i].1)
      invariant forall i, j :: 0 <= i < j < k ==> os[i] != os[j]
    {
      var o := new VariableObserver(entries[k].1);
      os := os + [o];
    }
  }

  class VarSet {
    /** The names in insertion order. */
    var names: seq<string>
    var variables: map<string, VariableObserver>

    ghost predicate Valid()
      reads this, variables.Values
    {
      (forall i, j :: 0 <= i < j < |names| ==> names[i] != names[j])
      && (forall n :: n in variables <==> n in names)
      && (forall n :: n in variables ==> variables[n].Valid())
    }

    /** `VarSet(variables)` from a dict, given as its items in insertion order:
        one fresh observer per entry, each starting as `VariableObserver(value)`
        does, and no two entries sharing an observer. */
    constructor (entries: seq<(string, PyValue)>)
      requires forall i, j :: 0 <= i < j < |entries| ==> entries[i].0 != entries[j].0
      ensures Valid()
      ensures |names| == |entries|
      ensures forall i :: 0 <= i < |entries| ==>
        names[i] == entries[i].0 && fresh(variables[names[i]]) && Initial(variables[names[i]], entries[i].1)
      ensures forall i, j :: 0 <= i < j < |names| ==> variables[names[i]] != variables[names[j]]
    {
      var os := MakeObservers(entries);
      var ns: seq<string> := [];
      var vs: map<string, VariableObserver> := map[];
      for k := 0 to |entries|
        invariant |ns| == k
        invariant forall i :: 0 <= i < k ==> ns[i] == entries[i].0
        invariant forall i :: 0 <= i < k ==> ns[i] in vs && vs[ns[i]] == os[i]
        invariant forall n :: n in vs ==> n in ns
      {
        var key := entries[k].0;
        assert key !in ns by {
          forall i | 0 <= i < k
            ensures ns[i] != key
          {
            assert ns[i] == entries[i].0;
          }
        }
        vs := vs[key := os[k]];
        ns := ns + [key];
      }
      forall n | n in vs
        ensures vs[n].Valid()
      {
        var i :| 0 <= i < |ns| && ns[i] == n;
      }
      names := ns;
      variables := vs;
    }

    /** The `str` of the first `k` current values, in insertion order. */
    function Current(k: nat): (r: seq<string>)
      requires Valid() && k <= |names|
      reads this, variables.Values
      ensures |r| == k
      ensures forall i :: 0 <= i < k ==> r[i] == ToStr(variables[names[i]].value)
    {
      if k == 0 then []
      else
        assert names[k - 1] in names;
        var prev := Current(k - 1);
        var x := ToStr(variables[names[k - 1]].value);
        assert forall i :: 0 <= i < k - 1 ==> (prev + [x])[i] == prev[i];
        prev + [x]
    }

    /** `print_variables()`: the line it paints, the current values joined by
        `", "` in insertion order (empty for an empty set). */
    method PrintVariables() returns (out: string)
      requires Valid()
      ensures out == Join(Current(|names|), ", ")
    {
      out := "";
      for i := 0 to |names|
        invariant out == Suffixed(Current(i), ", ")
      {
        out := out + ToStr(variables[names[i]].value) + ", ";
        assert Current(i + 1)[..i] == Current(i);
      }
      if Current(|names|) != [] {
        SuffixedIsJoin(Current(|names|), ", ");
      }
      out := if |out| >= 2 then out[..|out| - 2] else "";
    }
  }
}

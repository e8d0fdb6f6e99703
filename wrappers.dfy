/** `Spockspace`, the namespace handed back to the user (spock/backend/wrappers.py):
    its entries, and the dict its printed form is built from. */
module Wrappers {
  import opened Results
  import opened Dicts
  import opened Values

  /** The keys a Spockspace hides when printed. */
  const HiddenKeys: set<string> := {"__key__", "__salt__", "__maps__"}

  /** `Spockspace(**kwargs)`: the namespace's `__dict__`, in insertion order. */
  datatype Spockspace = Spockspace(entries: Items)

  function StartsWith(s: string, p: string): bool {
    |p| <= |s| && s[..|p|] == p
  }

  /** `{ik: iv for ik, iv in vars(v).items() if not ik.startswith("_")}`. */
  function PublicAttrs(v: Value): (r: Result<Items>)
    ensures r.Ok? <==> HasVars(v)
    ensures r.Err? ==> r.exc == TypeError
    ensures r.Ok? ==> forall i :: 0 <= i < |r.value| ==> !StartsWith(r.value[i].0, "_")
    ensures r.Ok? && v.Instance? ==> forall i :: 0 <= i < |v.attrs| && !StartsWith(v.attrs[i].0, "_") ==> v.attrs[i] in r.value
    ensures r.Ok? && v.Instance? ==> forall x :: x in r.value ==> x in v.attrs
    ensures v.ClassRef? || v.Callable? ==> r == Ok([])
  {
    var attrs :- Vars(v);
    Ok(FilterPublic(attrs))
  }

  function FilterPublic(d: Items): (r: Items)
    ensures forall i :: 0 <= i < |r| ==> !StartsWith(r[i].0, "_")
    ensures forall i :: 0 <= i < |d| && !StartsWith(d[i].0, "_") ==> d[i] in r
    ensures forall x :: x in r ==> x in d
  {
    if d == [] then []
    else if StartsWith(d[0].0, "_") then FilterPublic(d[1..])
    else [d[0]] + FilterPublic(d[1..])
  }

  /** The entries `__repr_dict__` shows, in order: all but the hidden ones. */
  function VisibleEntries(es: Items): (r: Items)
    ensures forall i :: 0 <= i < |r| ==> r[i] in es && r[i].0 !in HiddenKeys
    ensures forall i :: 0 <= i < |es| && es[i].0 !in HiddenKeys ==> es[i] in r
  {
    if es == [] then []
    else if es[0].0 in HiddenKeys then VisibleEntries(es[1..])
    else [es[0]] + VisibleEntries(es[1..])
  }

  /** `__repr_dict__`: every entry but the hidden ones, in order, each reduced
      to its public attributes; `vars` of a visible entry that has none raises
      TypeError. */
  function ReprDict(sp: Spockspace): (r: Result<Dict<Items>>)
    ensures r.Ok? <==> forall i :: 0 <= i < |sp.entries| && sp.entries[i].0 !in HiddenKeys ==> HasVars(sp.entries[i].1)
    ensures r.Err? ==> r.exc == TypeError
    ensures r.Ok? ==> |r.value| == |VisibleEntries(sp.entries)|
    ensures r.Ok? ==> forall i :: 0 <= i < |r.value| ==>
      r.value[i].0 == VisibleEntries(sp.entries)[i].0 && Ok(r.value[i].1) == PublicAttrs(VisibleEntries(sp.entries)[i].1)
    ensures r.Ok? ==> forall k :: HasKey(r.value, k) <==> HasKey(sp.entries, k) && k !in HiddenKeys
  {
    ReprKeys(sp.entries);
    ReprEntries(sp.entries)
  }

  function ReprEntries(es: Items): (r: Result<Dict<Items>>)
    ensures r.Ok? <==> forall i :: 0 <= i < |es| && es[i].0 !in HiddenKeys ==> HasVars(es[i].1)
    ensures r.Err? ==> r.exc == TypeError
    ensures r.Ok? ==> |r.value| == |VisibleEntries(es)|
    ensures r.Ok? ==> forall i :: 0 <= i < |r.value| ==>
      r.value[i].0 == VisibleEntries(es)[i].0 && Ok(r.value[i].1) == PublicAttrs(VisibleEntries(es)[i].1)
  {
    if es == [] then Ok([])
    else
      var rest :- ReprEntries(es[1..]);
      assert forall i :: 1 <= i < |es| ==> es[1..][i - 1] == es[i];
      var vis := VisibleEntries(es[1..]);
      if es[0].0 in HiddenKeys then
        assert VisibleEntries(es) == vis;
        Ok(rest)
      else
        var p :- PublicAttrs(es[0].1);
        assert VisibleEntries(es) == [es[0]] + vis;
        Ok([(es[0].0, p)] + rest)
  }

  /** The printed dict has exactly the keys that are not hidden. */
  lemma ReprKeys(es: Items)
    ensures ReprEntries(es).Ok? ==> forall k :: HasKey(ReprEntries(es).value, k) <==> HasKey(es, k) && k !in HiddenKeys
  {
    var r := ReprEntries(es);
    if r.Ok? {
      var vis := VisibleEntries(es);
      forall k ensures HasKey(r.value, k) <==> HasKey(es, k) && k !in HiddenKeys {
        VisibleKeys(es, k);
        if HasKey(r.value, k) {
          var i :| 0 <= i < |r.value| && r.value[i].0 == k;
          assert vis[i].0 == k;
        }
        if HasKey(vis, k) {
          var i :| 0 <= i < |vis| && vis[i].0 == k;
          assert r.value[i].0 == k;
        }
      }
    }
  }

  /** The visible entries carry exactly the keys that are not hidden. */
  lemma {:induction false} VisibleKeys(es: Items, k: string)
    ensures HasKey(VisibleEntries(es), k) <==> HasKey(es, k) && k !in HiddenKeys
  {
    if es != [] {
      VisibleKeys(es[1..], k);
      HasKeyCons(es, k);
      var vis := VisibleEntries(es);
      if es[0].0 !in HiddenKeys {
        HasKeyCons(vis, k);
        assert vis[1..] == VisibleEntries(es[1..]);
      }
    }
  }

  /** `__iter__` yields every entry, hidden ones included, in order. */
  function Iter(sp: Spockspace): (r: Items)
    ensures |r| == |sp.entries| && forall i :: 0 <= i < |r| ==> r[i] == sp.entries[i]
  {
    sp.entries
  }
}

/** The registry that combines the individual filters of the movie list into
    one predicate and tells its owner (the presenter) whenever that predicate
    changes. Items are of any type T; a filter's current predicate is a
    function T -> bool. */
module FilterMachines {

  /** The filter classes that can be registered. */
  datatype FilterKind = Title | Year | Rating | Date | Genre | Country | Director | Platform | Gamemaker

  /** A registered filter object, known to the machine by its ID. */
  datatype FilterObj = FilterObj(id: nat, kind: FilterKind)

  /** YearFilter and DateFilter call their own reset() at the end of
      populateChoices; the list-box filters and RatingFilter do not. */
  predicate ResetsOnPopulate(k: FilterKind) {
    k == Year || k == Date
  }

  /** Filter.DEFAULT: an inactive filter lets everything pass. */
  function Default<T>(): T -> bool {
    (x: T) => true
  }

  /** The class-wide counter Filter.NEXT_ID that gives each filter its ID. */
  class FilterIds {
    var next: nat
    ghost var issued: set<nat>

    ghost predicate Valid()
      reads this
    {
      forall id :: id in issued ==> id < next
    }

    constructor ()
      ensures Valid() && next == 0 && issued == {}
    {
      next := 0;
      issued := {};
    }

    /** Filter.__getNewID: returns the counter and bumps it; the ID was never
        handed out before. */
    method NewId() returns (id: nat)
      requires Valid()
      modifies this
      ensures Valid()
      ensures id == old(next) && next == old(next) + 1
      ensures id !in old(issued) && issued == old(issued) + {id}
    {
      id := next;
      next := next + 1;
      issued := issued + {id};
    }
  }

  /** The filter objects, their current predicates and their "active" flags are
      three parallel lists; `index` maps a filter's ID to its position.
      `notifications` counts the calls of the owner's callback. */
  class FilterMachine<T(!new)> {
    var objs: seq<FilterObj>
    var funs: seq<T -> bool>
    var flags: seq<bool>
    var index: map<nat, nat>
    var ignoreCallback: bool
    var notifications: nat

    ghost predicate Valid()
      reads this
    {
      && |funs| == |objs|
      && |flags| == |objs|
      && (forall i :: 0 <= i < |objs| ==> objs[i].id in index && index[objs[i].id] == i)
      && (forall id :: id in index ==> index[id] < |objs| && objs[index[id]].id == id)
    }

    constructor ()
      ensures Valid()
      ensures objs == [] && funs == [] && flags == [] && index == map[]
      ensures !ignoreCallback && notifications == 0
    {
      objs, funs, flags, index := [], [], [], map[];
      ignoreCallback := false;
      notifications := 0;
    }

    /** registerFilter: one more entry on each list, dormant, reachable by its ID.
        IDs come from FilterIds, so a new filter's ID is not registered yet. */
    method RegisterFilter(f: FilterObj, fun: T -> bool)
      requires Valid() && f.id !in index
      modifies this
      ensures Valid()
      ensures objs == old(objs) + [f] && funs == old(funs) + [fun] && flags == old(flags) + [false]
      ensures index == old(index)[f.id := |old(objs)|]
      ensures ignoreCallback == old(ignoreCallback) && notifications == old(notifications)
    {
      objs := objs + [f];
      funs := funs + [fun];
      flags := flags + [false];
      index := index[f.id := |objs| - 1];
    }

    /** updateCallback, which a filter calls through notifyMachine (reset = false)
        and through _reset (reset = true). The new predicate is always stored; a
        dormant filter asking for a reset changes nothing else and is not
        reported; otherwise the filter becomes active (or dormant, on a reset)
        and the owner is notified unless notifications are suppressed. */
    method UpdateCallback(id: nat, fun: T -> bool, reset: bool)
      requires Valid() && id in index
      modifies this
      ensures Valid()
      ensures objs == old(objs) && index == old(index) && ignoreCallback == old(ignoreCallback)
      ensures funs == old(funs)[index[id] := fun]
      ensures reset && !old(flags)[index[id]] ==>
                flags == old(flags) && notifications == old(notifications)
      ensures !(reset && !old(flags)[index[id]]) ==>
                && flags == old(flags)[index[id] := !reset]
                && notifications == old(notifications) + (if ignoreCallback then 0 else 1)
    {
      var pos := index[id];
      funs := funs[pos := fun];
      if reset && !flags[pos] {
        return;
      }
      flags := flags[pos := !reset];
      if !ignoreCallback {
        notifications := notifications + 1;
      }
    }

    /** Filter._reset as the machine sees it: the filter's predicate goes back
        to Filter.DEFAULT and it asks for a reset. */
    method ResetFilter(id: nat)
      requires Valid() && id in index
      modifies this
      ensures Valid()
      ensures objs == old(objs) && index == old(index) && ignoreCallback == old(ignoreCallback)
      ensures funs == old(funs)[index[id] := Default()]
      ensures flags == old(flags)[index[id] := false]
      ensures notifications == old(notifications) + (if old(flags)[index[id]] && !ignoreCallback then 1 else 0)
    {
      UpdateCallback(id, Default(), true);
    }

    /** resetAllFilters: resets the active filters (all of them when forced)
        with the owner's callback suppressed, leaves every filter dormant, and
        then notifies the owner exactly once. */
    method ResetAllFilters(force: bool)
      requires Valid()
      modifies this
      ensures Valid()
      ensures objs == old(objs) && index == old(index)
      ensures |flags| == |objs| && forall i :: 0 <= i < |flags| ==> !flags[i]
      ensures !ignoreCallback
      ensures notifications == old(notifications) + 1
      ensures forall i :: 0 <= i < |funs| ==>
                funs[i] == if old(flags)[i] || force then Default() else old(funs)[i]
    {
      ignoreCallback := true;
      var i := 0;
      while i < |objs|
        invariant Valid() && 0 <= i <= |objs|
        invariant objs == old(objs) && index == old(index)
        invariant ignoreCallback && notifications == old(notifications)
        invariant forall j :: 0 <= j < i ==> !flags[j]
        invariant forall j :: i <= j < |flags| ==> flags[j] == old(flags)[j]
        invariant forall j :: 0 <= j < i ==>
                    funs[j] == if old(flags)[j] || force then Default() else old(funs)[j]
        invariant forall j :: i <= j < |funs| ==> funs[j] == old(funs)[j]
      {
        if flags[i] || force {
          ResetFilter(objs[i].id);
        }
        i := i + 1;
      }
      flags := seq(|flags|, _ => false);
      ignoreCallback := false;
      notifications := notifications + 1;
    }

    /** How many of the first n filters are active and reset themselves while
        their choices are populated. */
    ghost function SelfResets(fl: seq<bool>, os: seq<FilterObj>, n: nat): nat
      requires n <= |fl| && n <= |os|
    {
      if n == 0 then 0
      else SelfResets(fl, os, n - 1) + (if fl[n - 1] && ResetsOnPopulate(os[n - 1].kind) then 1 else 0)
    }

    /** populateChoices: every filter recomputes its choices (a Year or Date
        filter resets itself on the way, which the owner hears about when that
        filter was active), then resetAllFilters. The filters' own choice lists
        are modelled with the filters; here only the machine's state. */
    method PopulateChoices()
      requires Valid() && !ignoreCallback
      modifies this
      ensures Valid()
      ensures objs == old(objs) && index == old(index)
      ensures |flags| == |objs| && forall i :: 0 <= i < |flags| ==> !flags[i]
      ensures !ignoreCallback
      ensures notifications == old(notifications) + SelfResets(old(flags), old(objs), |old(objs)|) + 1
      ensures forall i :: 0 <= i < |funs| ==>
                funs[i] == if old(flags)[i] || ResetsOnPopulate(objs[i].kind) then Default() else old(funs)[i]
    {
      var i := 0;
      while i < |objs|
        invariant Valid() && 0 <= i <= |objs|
        invariant objs == old(objs) && index == old(index) && !ignoreCallback
        invariant notifications == old(notifications) + SelfResets(old(flags), old(objs), i)
        invariant forall j :: 0 <= j < i ==>
                    flags[j] == (old(flags)[j] && !ResetsOnPopulate(objs[j].kind))
        invariant forall j :: i <= j < |flags| ==> flags[j] == old(flags)[j]
        invariant forall j :: 0 <= j < i ==>
                    funs[j] == if ResetsOnPopulate(objs[j].kind) then Default() else old(funs)[j]
        invariant forall j :: i <= j < |funs| ==> funs[j] == old(funs)[j]
      {
        if ResetsOnPopulate(objs[i].kind) {
          ResetFilter(objs[i].id);
        }
        i := i + 1;
      }
      ResetAllFilters(false);
    }

    /** The predicates of the active filters, in registration order. */
    static function Active(fs: seq<T -> bool>, fl: seq<bool>): (r: seq<T -> bool>)
      requires |fs| == |fl|
      ensures forall f :: f in r ==> exists i :: 0 <= i < |fs| && fl[i] && f == fs[i]
      ensures forall i :: 0 <= i < |fs| && fl[i] ==> fs[i] in r
    {
      if fs == [] then []
      else
        var rest := Active(fs[1..], fl[1..]);
        var r := (if fl[0] then [fs[0]] else []) + rest;
        assert forall f :: f in r ==> exists i :: 0 <= i < |fs| && fl[i] && f == fs[i] by {
          forall f | f in r ensures exists i :: 0 <= i < |fs| && fl[i] && f == fs[i] {
            if f !in rest {
              assert fl[0] && f == fs[0];
            } else {
              var j :| 0 <= j < |fs[1..]| && fl[1..][j] && f == fs[1..][j];
              assert fl[j + 1] && f == fs[j + 1];
            }
          }
        }
        r
    }

    /** Python's all([f(item) for f in fs]). */
    static function AllAccept(fs: seq<T -> bool>, item: T): bool {
      forall k :: 0 <= k < |fs| ==> fs[k](item)
    }

    /** getFiltering: the conjunction of the active filters' predicates; with
        no active filter, the single predicate that accepts everything. */
    function GetFiltering(): (r: T -> bool)
      reads this
      requires Valid()
      ensures forall item :: r(item) <==> forall i :: 0 <= i < |funs| && flags[i] ==> funs[i](item)
    {
      var active := Active(funs, flags);
      var fs := if active == [] then [Default()] else active;
      assert forall item :: AllAccept(fs, item) <==> forall i :: 0 <= i < |funs| && flags[i] ==> funs[i](item) by {
        forall item
          ensures AllAccept(fs, item) <==> forall i :: 0 <= i < |funs| && flags[i] ==> funs[i](item)
        {
          if AllAccept(fs, item) {
            forall i | 0 <= i < |funs| && flags[i] ensures funs[i](item) {
              assert funs[i] in active;
              var k :| 0 <= k < |active| && active[k] == funs[i];
              assert fs[k](item);
            }
          }
          if forall i :: 0 <= i < |funs| && flags[i] ==> funs[i](item) {
            forall k | 0 <= k < |fs| ensures fs[k](item) {
              if active != [] {
                assert fs[k] in active;
                var i :| 0 <= i < |funs| && flags[i] && fs[k] == funs[i];
              }
            }
          }
        }
      }
      (item: T) => AllAccept(fs, item)
    }
  }
}

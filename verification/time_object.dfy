/**
 * The LwM2M Time object (object 3333): a list of instances kept in
 * strictly ascending instance-id order, each with an application type
 * string and its transaction backup, and the data-model handlers that
 * find, create, remove, reset, read and write instances and back up and
 * roll back their application types.
 *
 * The linked list is a sequence field that the handlers reassign.
 */
module TimeObject {
  import opened Types

  /** `anjay_iid_t`: a 16-bit instance id. */
  type Iid = x: int | 0 <= x < 0x1_0000

  /** `ANJAY_ID_INVALID`, never the id of an instance. */
  const ANJAY_ID_INVALID: Iid := 65535

  const RID_CURRENT_TIME: nat := 5506
  const RID_FRACTIONAL_TIME: nat := 5507
  const RID_APPLICATION_TYPE: nat := 5750

  /** The size of the `application_type` buffers, terminating NUL included. */
  const APP_TYPE_SIZE: nat := 64

  /** Anjay error codes: CoAP 4.04, 4.05 and 5.00 as negative numbers. */
  const ANJAY_ERR_NOT_FOUND: int := -132
  const ANJAY_ERR_METHOD_NOT_ALLOWED: int := -133
  const ANJAY_ERR_INTERNAL: int := -160

  /** `time_instance_t`. */
  datatype Instance = Instance(iid: Iid, appType: string, backup: string)

  /** A value a resource read returns. */
  datatype ResourceValue = IntValue(i: int) | StringValue(s: string)

  /** The outcome of a resource read: the value, or the handler's error code. */
  datatype ReadResult = ReadOk(value: ResourceValue) | ReadErr(code: int)

  /** A resource as `list_resources` announces it: all read-write, present or absent. */
  datatype ResourceEntry = ResourceEntry(rid: nat, present: bool)

  /**
   * `list_resources`, the same for every instance: Current Time and
   * Application Type present, Fractional Time absent, in ascending order.
   */
  function ListResources(): (entries: seq<ResourceEntry>)
    ensures |entries| == 3
    ensures [entries[0].rid, entries[1].rid, entries[2].rid] == [RID_CURRENT_TIME, RID_FRACTIONAL_TIME, RID_APPLICATION_TYPE]
    ensures forall i, j :: 0 <= i < j < |entries| ==> entries[i].rid < entries[j].rid
    ensures forall e :: e in entries ==> (e.present <==> e.rid != RID_FRACTIONAL_TIME)
  {
    [ResourceEntry(RID_CURRENT_TIME, true),
     ResourceEntry(RID_FRACTIONAL_TIME, false),
     ResourceEntry(RID_APPLICATION_TYPE, true)]
  }

  /** Instance ids strictly ascend along the list. */
  ghost predicate Sorted(s: seq<Instance>)
  {
    forall i, j :: 0 <= i < j < |s| ==> s[i].iid < s[j].iid
  }

  /** The instance ids present in the list. */
  ghost function Iids(s: seq<Instance>): set<int>
  {
    set i | 0 <= i < |s| :: s[i].iid
  }

  /** The first instance with id `iid`, if there is one. */
  function Lookup(s: seq<Instance>, iid: int): (r: Option<Instance>)
    ensures r.Some? ==> r.value in s && r.value.iid == iid
    ensures r.None? <==> iid !in Iids(s)
  {
    if s == [] then None
    else if s[0].iid == iid then Some(s[0])
    else
      var r := Lookup(s[1..], iid);
      assert Iids(s) == {s[0].iid} + Iids(s[1..]) by {
        forall x ensures x in Iids(s) <==> x in {s[0].iid} + Iids(s[1..]) {
          if x in Iids(s) {
            var i :| 0 <= i < |s| && s[i].iid == x;
            if i > 0 { assert s[1..][i - 1] == s[i]; }
          }
          if x in Iids(s[1..]) {
            var i :| 0 <= i < |s[1..]| && s[1..][i].iid == x;
            assert s[i + 1] == s[1..][i];
          }
        }
      }
      r
  }

  /** In a sorted list, the instance at `k` is the one a lookup of its id finds. */
  lemma {:induction false} LookupAt(s: seq<Instance>, k: nat)
    requires Sorted(s) && k < |s|
    ensures Lookup(s, s[k].iid) == Some(s[k])
  {
    if k > 0 {
      assert s[1..][k - 1] == s[k];
      LookupAt(s[1..], k - 1);
    }
  }

  /** `init_instance` on a zeroed element: the id, and empty strings. */
  function NewInstance(iid: Iid): (inst: Instance)
    requires iid != ANJAY_ID_INVALID
    ensures inst.iid == iid && inst.appType == [] && inst.backup == []
  {
    Instance(iid, "", "")
  }

  /** The list with `x` inserted before the first instance with a larger id. */
  function InsertSorted(s: seq<Instance>, x: Instance): seq<Instance>
  {
    if s == [] then [x]
    else if s[0].iid > x.iid then [x] + s
    else [s[0]] + InsertSorted(s[1..], x)
  }

  /** The list without the instances with id `iid`. */
  function RemoveIid(s: seq<Instance>, iid: int): seq<Instance>
  {
    if s == [] then []
    else if s[0].iid == iid then RemoveIid(s[1..], iid)
    else [s[0]] + RemoveIid(s[1..], iid)
  }

  /** The list with the application type of instance `iid` set to `v`. */
  function SetAppType(s: seq<Instance>, iid: int, v: string): seq<Instance>
  {
    seq(|s|, i requires 0 <= i < |s| => if s[i].iid == iid then s[i].(appType := v) else s[i])
  }

  /** `transaction_begin`: every application type copied to its backup. */
  function Backup(s: seq<Instance>): seq<Instance>
  {
    seq(|s|, i requires 0 <= i < |s| => s[i].(backup := s[i].appType))
  }

  /** `transaction_rollback`: every backup copied to its application type. */
  function Restore(s: seq<Instance>): seq<Instance>
  {
    seq(|s|, i requires 0 <= i < |s| => s[i].(appType := s[i].backup))
  }

  lemma IidsCons(x: Instance, s: seq<Instance>)
    ensures Iids([x] + s) == {x.iid} + Iids(s)
  {
    var t := [x] + s;
    forall y ensures y in Iids(t) <==> y in {x.iid} + Iids(s) {
      if y == x.iid {
        assert t[0] == x;
      }
      if y in Iids(t) {
        var i :| 0 <= i < |t| && t[i].iid == y;
        if i > 0 { assert t[i] == s[i - 1]; }
      }
      if y in Iids(s) {
        var i :| 0 <= i < |s| && s[i].iid == y;
        assert t[i + 1] == s[i];
      }
    }
  }

  /** A list stays sorted when an element below all of it is put in front. */
  lemma SortedCons(a: Instance, t: seq<Instance>)
    requires Sorted(t) && forall j :: 0 <= j < |t| ==> a.iid < t[j].iid
    ensures Sorted([a] + t)
  {
    forall i, j | 0 <= i < j < |[a] + t| ensures ([a] + t)[i].iid < ([a] + t)[j].iid {
      assert ([a] + t)[j] == t[j - 1];
      if i > 0 {
        assert ([a] + t)[i] == t[i - 1];
      }
    }
  }

  /** Inserting an element above `lo` into a list above `lo` gives a list above `lo`. */
  lemma {:induction false} InsertSortedAbove(s: seq<Instance>, x: Instance, lo: int)
    requires lo < x.iid && forall j :: 0 <= j < |s| ==> lo < s[j].iid
    ensures forall j :: 0 <= j < |InsertSorted(s, x)| ==> lo < InsertSorted(s, x)[j].iid
  {
    if s != [] && s[0].iid <= x.iid {
      InsertSortedAbove(s[1..], x, lo);
    }
  }

  lemma SortedTail(s: seq<Instance>)
    requires Sorted(s) && s != []
    ensures Sorted(s[1..]) && forall j :: 0 <= j < |s[1..]| ==> s[0].iid < s[1..][j].iid
  {
    forall j | 0 <= j < |s[1..]| ensures s[0].iid < s[1..][j].iid {
      assert s[1..][j] == s[j + 1];
    }
  }

  /** Insertion adds exactly the new instance: the same elements plus `x`. */
  lemma {:induction false} InsertSortedContents(s: seq<Instance>, x: Instance)
    ensures multiset(InsertSorted(s, x)) == multiset(s) + multiset{x}
    ensures Iids(InsertSorted(s, x)) == Iids(s) + {x.iid}
  {
    if s == [] {
      IidsCons(x, []);
    } else if s[0].iid > x.iid {
      IidsCons(x, s);
    } else {
      var t := InsertSorted(s[1..], x);
      assert s == [s[0]] + s[1..];
      InsertSortedContents(s[1..], x);
      IidsCons(s[0], s[1..]);
      IidsCons(s[0], t);
    }
  }

  /**
   * `add_instance` keeps the list strictly ascending, provided the new id
   * was absent.
   */
  lemma {:induction false} InsertSortedKeepsOrder(s: seq<Instance>, x: Instance)
    requires Sorted(s) && x.iid !in Iids(s)
    ensures Sorted(InsertSorted(s, x))
  {
    if s == [] {
    } else if s[0].iid > x.iid {
      SortedCons(x, s);
    } else {
      assert s[0].iid in Iids(s);
      SortedTail(s);
      IidsCons(s[0], s[1..]);
      assert s == [s[0]] + s[1..];
      InsertSortedKeepsOrder(s[1..], x);
      InsertSortedAbove(s[1..], x, s[0].iid);
      SortedCons(s[0], InsertSorted(s[1..], x));
    }
  }

  /** The insertion point is after every smaller id and before every larger one. */
  lemma {:induction false} InsertSortedAt(s: seq<Instance>, x: Instance, k: nat)
    requires k <= |s|
    requires forall j :: 0 <= j < k ==> s[j].iid < x.iid
    requires k == |s| || s[k].iid > x.iid
    ensures InsertSorted(s, x) == s[..k] + [x] + s[k..]
  {
    if k > 0 {
      InsertSortedAt(s[1..], x, k - 1);
      assert s[..k] == [s[0]] + s[1..][..k - 1];
      assert s[k..] == s[1..][k - 1..];
    } else if s != [] {
      assert s[..0] + [x] + s[0..] == [x] + s;
    }
  }

  /**
   * A freshly created instance is found by its id and reads as an empty
   * application type.
   */
  lemma {:induction false} CreatedReadsEmpty(s: seq<Instance>, iid: Iid)
    requires iid != ANJAY_ID_INVALID && iid !in Iids(s)
    ensures Lookup(InsertSorted(s, NewInstance(iid)), iid) == Some(Instance(iid, "", ""))
  {
    if s != [] && s[0].iid <= iid {
      assert s == [s[0]] + s[1..];
      IidsCons(s[0], s[1..]);
      CreatedReadsEmpty(s[1..], iid);
      assert s[0].iid in Iids(s);
      var t := InsertSorted(s[1..], NewInstance(iid));
      assert ([s[0]] + t)[1..] == t;
    }
  }

  /** Removing an absent id leaves the list as it was. */
  lemma {:induction false} RemoveAbsent(s: seq<Instance>, iid: int)
    requires forall j :: 0 <= j < |s| ==> s[j].iid != iid
    ensures RemoveIid(s, iid) == s
  {
    if s != [] {
      RemoveAbsent(s[1..], iid);
      assert s == [s[0]] + s[1..];
    }
  }

  /**
   * In a sorted list, removing the id of the instance at `k` unlinks that
   * element alone and keeps the others in order.
   */
  lemma {:induction false} RemoveAt(s: seq<Instance>, k: nat)
    requires Sorted(s) && k < |s|
    ensures RemoveIid(s, s[k].iid) == s[..k] + s[k + 1..]
  {
    if k == 0 {
      RemoveAbsent(s[1..], s[0].iid);
    } else {
      RemoveAt(s[1..], k - 1);
      assert s[1..][k - 1] == s[k];
      assert s[..k] == [s[0]] + s[1..][..k - 1];
      assert s[k + 1..] == s[1..][k..];
    }
  }

  /**
   * `instance_remove` keeps the list sorted and takes out exactly the
   * instance with that id: the list shrinks by one if it was present, and
   * is unchanged otherwise.
   */
  lemma {:induction false} RemoveIidKeepsOrder(s: seq<Instance>, iid: int)
    requires Sorted(s)
    ensures Sorted(RemoveIid(s, iid))
    ensures Iids(RemoveIid(s, iid)) == Iids(s) - {iid}
    ensures |RemoveIid(s, iid)| == if iid in Iids(s) then |s| - 1 else |s|
  {
    if s != [] {
      var r := RemoveIid(s[1..], iid);
      RemoveIidKeepsOrder(s[1..], iid);
      assert s == [s[0]] + s[1..];
      IidsCons(s[0], s[1..]);
      assert s[0].iid !in Iids(s[1..]) by {
        forall m | 0 <= m < |s[1..]| ensures s[1..][m].iid != s[0].iid {
          assert s[1..][m] == s[m + 1];
        }
      }
      if s[0].iid != iid {
        IidsCons(s[0], r);
        forall i, j | 0 <= i < j < |[s[0]] + r| ensures ([s[0]] + r)[i].iid < ([s[0]] + r)[j].iid {
          if i == 0 {
            assert ([s[0]] + r)[j] == r[j - 1];
            assert r[j - 1].iid in Iids(r) by { assert 0 <= j - 1 < |r|; }
            var m :| 0 <= m < |s[1..]| && s[1..][m].iid == r[j - 1].iid;
            assert s[1..][m] == s[m + 1];
          }
        }
      }
    }
  }

  /** In a sorted list, setting the type of the instance at `k` touches that element alone. */
  lemma SetAppTypeAt(s: seq<Instance>, k: nat, v: string)
    requires Sorted(s) && k < |s|
    ensures SetAppType(s, s[k].iid, v) == s[k := s[k].(appType := v)]
  {
  }

  /**
   * Writing the application type of instance `iid` changes what a read of
   * that instance returns to `v` and changes no other instance.
   */
  lemma {:induction false} WriteThenLookup(s: seq<Instance>, iid: int, v: string, other: int)
    requires Sorted(s) && iid in Iids(s)
    ensures Sorted(SetAppType(s, iid, v)) && Iids(SetAppType(s, iid, v)) == Iids(s)
    ensures Lookup(SetAppType(s, iid, v), iid) == Some(Lookup(s, iid).value.(appType := v))
    ensures other != iid ==> Lookup(SetAppType(s, iid, v), other) == Lookup(s, other)
  {
    var t := SetAppType(s, iid, v);
    var k :| 0 <= k < |s| && s[k].iid == iid;
    assert forall i :: 0 <= i < |s| ==> t[i].iid == s[i].iid;
    assert Iids(t) == Iids(s) by {
      forall x ensures x in Iids(t) <==> x in Iids(s) {
        if x in Iids(t) { var i :| 0 <= i < |t| && t[i].iid == x; assert s[i].iid == x; }
        if x in Iids(s) { var i :| 0 <= i < |s| && s[i].iid == x; assert t[i].iid == x; }
      }
    }
    LookupAt(s, k);
    LookupAt(t, k);
    if other != iid && other in Iids(s) {
      var m :| 0 <= m < |s| && s[m].iid == other;
      LookupAt(s, m);
      LookupAt(t, m);
    }
  }

  /** A handler run inside a transaction that edits application types. */
  datatype Edit = WriteAppType(iid: int, value: string) | ResetAppType(iid: int)

  /** The list after the edits, in order. */
  function ApplyEdits(s: seq<Instance>, edits: seq<Edit>): seq<Instance>
    decreases |edits|
  {
    if edits == [] then s
    else
      var e := edits[|edits| - 1];
      var t := ApplyEdits(s, edits[..|edits| - 1]);
      match e
      case WriteAppType(iid, v) => SetAppType(t, iid, v)
      case ResetAppType(iid) => SetAppType(t, iid, "")
  }

  /** Edits to application types leave ids and backups alone. */
  lemma {:induction false} EditsKeepBackups(s: seq<Instance>, edits: seq<Edit>)
    ensures |ApplyEdits(s, edits)| == |s|
    ensures forall i :: 0 <= i < |s| ==>
      ApplyEdits(s, edits)[i].iid == s[i].iid && ApplyEdits(s, edits)[i].backup == s[i].backup
    decreases |edits|
  {
    if edits != [] {
      EditsKeepBackups(s, edits[..|edits| - 1]);
    }
  }

  /**
   * `transaction_begin` followed by any writes and resets of application
   * types and then `transaction_rollback` gives back the list as it was
   * just after the backup: every application type is the one at begin.
   */
  lemma RollbackRestores(s: seq<Instance>, edits: seq<Edit>)
    ensures Restore(ApplyEdits(Backup(s), edits)) == Backup(s)
    ensures forall i :: 0 <= i < |s| ==> Restore(ApplyEdits(Backup(s), edits))[i].appType == s[i].appType
  {
    var b := Backup(s);
    var t := ApplyEdits(b, edits);
    EditsKeepBackups(b, edits);
    assert forall i :: 0 <= i < |s| ==> Restore(t)[i] == b[i];
  }

  /** `time_object_t`: the object's instance list. */
  class TimeObject {
    var instances: seq<Instance>

    /**
     * The list strictly ascends, holds no invalid id, and every string
     * fits its 64-byte buffer.
     */
    ghost predicate Valid()
      reads this
    {
      && Sorted(instances)
      && ANJAY_ID_INVALID !in Iids(instances)
      && forall i :: 0 <= i < |instances| ==>
           |instances[i].appType| < APP_TYPE_SIZE && |instances[i].backup| < APP_TYPE_SIZE
    }

    /** A zeroed object, as `avs_calloc` gives it. */
    constructor ()
      ensures Valid() && instances == []
    {
      instances := [];
    }

    /**
     * `find_instance`: the index of the instance with id `iid`, or None;
     * the scan stops at the first larger id.
     */
    method FindInstance(iid: int) returns (found: Option<nat>)
      requires Sorted(instances)
      ensures found.Some? ==> found.value < |instances| && instances[found.value].iid == iid
      ensures found.Some? ==> Lookup(instances, iid) == Some(instances[found.value])
      ensures found.None? <==> iid !in Iids(instances)
    {
      var k := 0;
      while k < |instances|
        invariant k <= |instances|
        invariant forall j :: 0 <= j < k ==> instances[j].iid < iid
      {
        if instances[k].iid == iid {
          LookupAt(instances, k);
          return Some(k);
        } else if instances[k].iid > iid {
          break;
        }
        k := k + 1;
      }
      assert forall j :: 0 <= j < |instances| ==> instances[j].iid != iid;
      return None;
    }

    /** `list_instances`: the instance ids in list order, hence strictly ascending. */
    method ListInstances() returns (ids: seq<Iid>)
      requires Sorted(instances)
      ensures |ids| == |instances|
      ensures forall i :: 0 <= i < |ids| ==> ids[i] == instances[i].iid
      ensures forall i, j :: 0 <= i < j < |ids| ==> ids[i] < ids[j]
    {
      ids := [];
      var k := 0;
      while k < |instances|
        invariant k <= |instances| && |ids| == k
        invariant forall i :: 0 <= i < k ==> ids[i] == instances[i].iid
      {
        ids := ids + [instances[k].iid];
        k := k + 1;
      }
    }

    /**
     * `add_instance`: a new instance with id `iid` and an empty type,
     * linked before the first instance with a larger id; None when the
     * allocation fails (`allocOk` false).
     */
    method AddInstance(iid: Iid, allocOk: bool) returns (created: Option<nat>)
      requires Valid() && iid != ANJAY_ID_INVALID && iid !in Iids(instances)
      modifies this
      ensures Valid()
      ensures !allocOk ==> created.None? && instances == old(instances)
      ensures allocOk ==> created.Some? && instances == InsertSorted(old(instances), NewInstance(iid))
      ensures allocOk ==> created.value < |instances| && instances[created.value] == NewInstance(iid)
    {
      if !allocOk {
        return None;
      }
      var x := NewInstance(iid);
      var k := 0;
      while k < |instances|
        invariant k <= |instances|
        invariant forall j :: 0 <= j < k ==> instances[j].iid < iid
      {
        if instances[k].iid > iid {
          break;
        }
        assert instances[k].iid in Iids(instances);
        k := k + 1;
      }
      InsertSortedAt(instances, x, k);
      InsertSortedKeepsOrder(instances, x);
      InsertSortedContents(instances, x);
      ghost var s := instances;
      instances := instances[..k] + [x] + instances[k..];
      forall i | 0 <= i < |instances|
        ensures |instances[i].appType| < APP_TYPE_SIZE && |instances[i].backup| < APP_TYPE_SIZE
      {
        if i != k {
          assert instances[i] in multiset(s);
        }
      }
      created := Some(k);
    }

    /** `instance_create`: 0, or `ANJAY_ERR_INTERNAL` when the allocation fails. */
    method InstanceCreate(iid: Iid, allocOk: bool) returns (r: int)
      requires Valid() && iid != ANJAY_ID_INVALID && iid !in Iids(instances)
      modifies this
      ensures Valid()
      ensures r == 0 ==> instances == InsertSorted(old(instances), NewInstance(iid))
      ensures r != 0 ==> r == ANJAY_ERR_INTERNAL && instances == old(instances)
      ensures r == 0 <==> allocOk
    {
      var created := AddInstance(iid, allocOk);
      r := if created.Some? then 0 else ANJAY_ERR_INTERNAL;
    }

    /**
     * `instance_remove`: unlinks the instance with id `iid`; an absent id
     * gives `ANJAY_ERR_NOT_FOUND` and leaves the list alone.
     */
    method InstanceRemove(iid: int) returns (r: int)
      requires Valid()
      modifies this
      ensures Valid()
      ensures instances == RemoveIid(old(instances), iid)
      ensures r == 0 <==> iid in old(Iids(instances))
      ensures r != 0 ==> r == ANJAY_ERR_NOT_FOUND
    {
      RemoveIidKeepsOrder(instances, iid);
      var k := 0;
      while k < |instances|
        invariant k <= |instances|
        invariant forall j :: 0 <= j < k ==> instances[j].iid < iid
      {
        if instances[k].iid == iid {
          RemoveAt(instances, k);
          instances := instances[..k] + instances[k + 1..];
          return 0;
        } else if instances[k].iid > iid {
          break;
        }
        k := k + 1;
      }
      assert forall j :: 0 <= j < |instances| ==> instances[j].iid != iid;
      RemoveAbsent(instances, iid);
      return ANJAY_ERR_NOT_FOUND;
    }

    /** `instance_reset`: empties the application type of the (present) instance `iid`. */
    method InstanceReset(iid: int) returns (r: int)
      requires Valid() && iid in Iids(instances)
      modifies this
      ensures Valid() && r == 0
      ensures instances == SetAppType(old(instances), iid, "")
    {
      var found := FindInstance(iid);
      var k := found.value;
      SetAppTypeAt(instances, k, "");
      WriteThenLookup(instances, iid, "", iid);
      instances := instances[k := instances[k].(appType := "")];
      r := 0;
    }

    /**
     * `resource_read` on the (present) instance `iid`: the current time in
     * seconds for 5506 (`now`, None when it cannot be converted, which
     * gives -1), the application type for 5750, and
     * `ANJAY_ERR_METHOD_NOT_ALLOWED` for any other resource. `retStatus` is
     * what the output context's `anjay_ret_i64` / `anjay_ret_string` returns
     * for the value handed to it; a non-zero status is passed on as the
     * read's result.
     */
    function ReadResource(iid: int, rid: nat, riid: int, now: Option<int>, retStatus: int): (r: ReadResult)
      reads this
      requires Valid() && iid in Iids(instances)
      requires rid == RID_CURRENT_TIME || rid == RID_APPLICATION_TYPE ==> riid == ANJAY_ID_INVALID
      ensures r.ReadOk? <==> (rid == RID_CURRENT_TIME && now.Some? && retStatus == 0) || (rid == RID_APPLICATION_TYPE && retStatus == 0)
      ensures rid != RID_CURRENT_TIME && rid != RID_APPLICATION_TYPE ==> r == ReadErr(ANJAY_ERR_METHOD_NOT_ALLOWED)
      ensures rid == RID_CURRENT_TIME ==>
        r == (if now.None? then ReadErr(-1) else if retStatus == 0 then ReadOk(IntValue(now.value)) else ReadErr(retStatus))
      ensures rid == RID_APPLICATION_TYPE ==>
        exists i :: 0 <= i < |instances| && instances[i].iid == iid &&
          r == (if retStatus == 0 then ReadOk(StringValue(instances[i].appType)) else ReadErr(retStatus))
    {
      if rid == RID_CURRENT_TIME then
        if now.None? then ReadErr(-1)
        else if retStatus == 0 then ReadOk(IntValue(now.value))
        else ReadErr(retStatus)
      else if rid == RID_APPLICATION_TYPE then
        var inst := Lookup(instances, iid).value;
        if retStatus == 0 then ReadOk(StringValue(inst.appType)) else ReadErr(retStatus)
      else
        ReadErr(ANJAY_ERR_METHOD_NOT_ALLOWED)
    }

    /**
     * `resource_write` on the (present) instance `iid`: 5750 stores the
     * string `value` the input context delivers and returns the status of
     * `anjay_get_string` (`getStatus`); any other resource gives
     * `ANJAY_ERR_METHOD_NOT_ALLOWED`.
     */
    method ResourceWrite(iid: int, rid: nat, riid: int, value: string, getStatus: int) returns (r: int)
      requires Valid() && iid in Iids(instances)
      requires rid == RID_APPLICATION_TYPE ==> riid == ANJAY_ID_INVALID
      requires |value| < APP_TYPE_SIZE
      modifies this
      ensures Valid()
      ensures rid == RID_APPLICATION_TYPE ==> r == getStatus && instances == SetAppType(old(instances), iid, value)
      ensures rid != RID_APPLICATION_TYPE ==> r == ANJAY_ERR_METHOD_NOT_ALLOWED && instances == old(instances)
    {
      var found := FindInstance(iid);
      var k := found.value;
      if rid == RID_APPLICATION_TYPE {
        SetAppTypeAt(instances, k, value);
        WriteThenLookup(instances, iid, value, iid);
        instances := instances[k := instances[k].(appType := value)];
        return getStatus;
      }
      return ANJAY_ERR_METHOD_NOT_ALLOWED;
    }

    /** `transaction_begin`: backs up every instance's application type. */
    method TransactionBegin() returns (r: int)
      requires Valid()
      modifies this
      ensures Valid() && r == 0
      ensures instances == Backup(old(instances))
    {
      ghost var s := instances;
      var i := 0;
      while i < |instances|
        invariant i <= |instances| == |s|
        invariant forall j :: 0 <= j < i ==> instances[j] == s[j].(backup := s[j].appType)
        invariant forall j :: i <= j < |s| ==> instances[j] == s[j]
      {
        instances := instances[i := instances[i].(backup := instances[i].appType)];
        i := i + 1;
      }
      assert forall j :: 0 <= j < |s| ==> instances[j].iid == s[j].iid;
      assert Iids(instances) == Iids(s) by {
        forall x ensures x in Iids(instances) <==> x in Iids(s) {
          if x in Iids(instances) { var j :| 0 <= j < |instances| && instances[j].iid == x; assert s[j].iid == x; }
          if x in Iids(s) { var j :| 0 <= j < |s| && s[j].iid == x; assert instances[j].iid == x; }
        }
      }
      r := 0;
    }

    /** `transaction_rollback`: restores every instance's application type from its backup. */
    method TransactionRollback() returns (r: int)
      requires Valid()
      modifies this
      ensures Valid() && r == 0
      ensures instances == Restore(old(instances))
    {
      ghost var s := instances;
      var i := 0;
      while i < |instances|
        invariant i <= |instances| == |s|
        invariant forall j :: 0 <= j < i ==> instances[j] == s[j].(appType := s[j].backup)
        invariant forall j :: i <= j < |s| ==> instances[j] == s[j]
      {
        instances := instances[i := instances[i].(appType := instances[i].backup)];
        i := i + 1;
      }
      assert forall j :: 0 <= j < |s| ==> instances[j].iid == s[j].iid;
      assert Iids(instances) == Iids(s) by {
        forall x ensures x in Iids(instances) <==> x in Iids(s) {
          if x in Iids(instances) { var j :| 0 <= j < |instances| && instances[j].iid == x; assert s[j].iid == x; }
          if x in Iids(s) { var j :| 0 <= j < |s| && s[j].iid == x; assert instances[j].iid == x; }
        }
      }
      r := 0;
    }
  }

  /**
   * `time_object_create`: an object holding exactly instance 0 with the
   * application type "Clock 0"; null when either allocation fails.
   */
  method Create(objAllocOk: bool, instAllocOk: bool) returns (obj: TimeObject?)
    ensures obj != null <==> objAllocOk && instAllocOk
    ensures obj != null ==> fresh(obj) && obj.Valid() && obj.instances == [Instance(0, "Clock 0", "")]
  {
    if !objAllocOk {
      return null;
    }
    obj := new TimeObject();
    var created := obj.AddInstance(0, instAllocOk);
    if created.None? {
      return null;
    }
    assert obj.instances == [NewInstance(0)];
    obj.instances := obj.instances[created.value := obj.instances[created.value].(appType := "Clock 0")];
  }
}

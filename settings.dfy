/** The system-settings screen: settings arrive grouped, are flattened into
    one editable record keyed by setting key, edits mark the record dirty, and
    saving sends every key with its current value. */
module Settings {
  import opened Js

  /** A setting's value: `string | number | boolean | null`. The screen only
      stores and forwards values, so numbers are kept as exact values. */
  datatype SettingValue = Text(s: string) | Number(x: real) | Flag(b: bool) | Null

  /** The part of a `SystemSetting` the edit buffer reads. */
  datatype Setting = Setting(key: string, value: SettingValue)

  /** One own property of the record, and one entry of the save payload. */
  datatype Entry = Entry(key: string, value: SettingValue)

  /** An object's own properties in insertion order. This is `Object.entries`
      order only when no key looks like an array index (such as `"1"`),
      which the model assumes of setting keys. */
  type Record = seq<Entry>

  ghost function Keys(rec: Record): set<string>
  {
    if rec == [] then {} else {rec[0].key} + Keys(rec[1..])
  }

  /** An object never has the same own property twice. */
  ghost predicate DistinctKeys(rec: Record)
  {
    rec == [] || (rec[0].key !in Keys(rec[1..]) && DistinctKeys(rec[1..]))
  }

  /** `rec[k]`, with `None` for a key the record does not have. */
  function Get(rec: Record, k: string): (r: Option<SettingValue>)
    ensures r.Some? <==> k in Keys(rec)
  {
    if rec == [] then None
    else if rec[0].key == k then Some(rec[0].value)
    else Get(rec[1..], k)
  }

  /** `{ ...rec, [k]: v }` (and `rec[k] = v`): an existing key keeps its
      place and takes the new value; a new key goes at the end. */
  function Put(rec: Record, k: string, v: SettingValue): (r: Record)
    requires DistinctKeys(rec)
    ensures Keys(r) == Keys(rec) + {k}
    ensures DistinctKeys(r)
  {
    if rec == [] then
      assert [Entry(k, v)][1..] == [];
      [Entry(k, v)]
    else if rec[0].key == k then
      var r := [Entry(k, v)] + rec[1..];
      assert r[1..] == rec[1..];
      r
    else
      var rest := Put(rec[1..], k, v);
      var r := [rec[0]] + rest;
      assert r[1..] == rest;
      r
  }

  /** After `Put`, reading `k` gives the new value and every other key
      reads as before. */
  lemma {:induction false} PutGet(rec: Record, k: string, v: SettingValue, q: string)
    requires DistinctKeys(rec)
    ensures Get(Put(rec, k, v), q) == if q == k then Some(v) else Get(rec, q)
  {
    if rec != [] && rec[0].key != k {
      var rest := Put(rec[1..], k, v);
      assert Put(rec, k, v)[1..] == rest;
      PutGet(rec[1..], k, v, q);
    } else if rec != [] {
      assert Put(rec, k, v)[1..] == rec[1..];
    }
  }

  /** `Put` on a new key appends; on an existing key every entry keeps its
      position, so the record's key order is insertion order. */
  lemma {:induction false} PutKeepsOrder(rec: Record, k: string, v: SettingValue)
    requires DistinctKeys(rec)
    ensures k !in Keys(rec) ==> Put(rec, k, v) == rec + [Entry(k, v)]
    ensures k in Keys(rec) ==> (|Put(rec, k, v)| == |rec| &&
      forall i :: 0 <= i < |rec| ==> Put(rec, k, v)[i].key == rec[i].key)
  {
    if rec != [] && rec[0].key != k {
      PutKeepsOrder(rec[1..], k, v);
      assert rec == [rec[0]] + rec[1..];
    }
  }

  /** A key is in the record exactly when some entry has it. */
  lemma {:induction false} KeysAt(rec: Record, k: string)
    ensures k in Keys(rec) <==> exists i :: 0 <= i < |rec| && rec[i].key == k
  {
    if rec != [] {
      KeysAt(rec[1..], k);
      assert forall i :: 0 < i < |rec| ==> rec[i] == rec[1..][i - 1];
    }
  }

  /** In a record, no two entries share a key, and reading an entry's key
      gives that entry's value. */
  lemma {:induction false} DistinctKeysAt(rec: Record)
    requires DistinctKeys(rec)
    ensures forall i, j :: 0 <= i < j < |rec| ==> rec[i].key != rec[j].key
    ensures forall i :: 0 <= i < |rec| ==> Get(rec, rec[i].key) == Some(rec[i].value)
  {
    if rec != [] {
      var tail := rec[1..];
      DistinctKeysAt(tail);
      KeysAt(tail, rec[0].key);
      assert forall i :: 0 < i < |rec| ==> rec[i] == tail[i - 1];
    }
  }

  /** `Object.values(data).flat()`: the groups' settings, group after group. */
  function Flatten(groups: seq<seq<Setting>>): (all: seq<Setting>)
    ensures forall g, j :: 0 <= g < |groups| && 0 <= j < |groups[g]| ==> groups[g][j] in all
    ensures forall s :: s in all ==> exists g :: 0 <= g < |groups| && s in groups[g]
  {
    if groups == [] then [] else groups[0] + Flatten(groups[1..])
  }

  /** Index `i` holds the last setting with its key. */
  ghost predicate LastWithKey(all: seq<Setting>, i: int)
    requires 0 <= i < |all|
  {
    forall j :: i < j < |all| ==> all[j].key != all[i].key
  }

  ghost function SettingKeys(all: seq<Setting>): set<string>
  {
    set s | s in all :: s.key
  }

  /** The record the load effect builds from the flattened settings, one
      assignment after another. */
  function Collect(all: seq<Setting>): (rec: Record)
    ensures DistinctKeys(rec)
  {
    if all == [] then []
    else Put(Collect(all[..|all| - 1]), all[|all| - 1].key, all[|all| - 1].value)
  }

  /** The collected record has exactly the keys of the settings. */
  lemma {:induction false} CollectKeys(all: seq<Setting>)
    ensures Keys(Collect(all)) == SettingKeys(all)
  {
    if all != [] {
      var front := all[..|all| - 1];
      var last := all[|all| - 1];
      CollectKeys(front);
      assert all == front + [last];
      forall x
        ensures x in SettingKeys(all) <==> x in SettingKeys(front) || x == last.key
      {
        if x in SettingKeys(all) {
          var s :| s in all && s.key == x;
          assert s in front || s == last;
        }
      }
    }
  }

  /** Each key carries the value of its last occurrence: on a duplicate key
      the later setting wins. */
  lemma {:induction false} CollectLastWins(all: seq<Setting>, i: int)
    requires 0 <= i < |all| && LastWithKey(all, i)
    ensures Get(Collect(all), all[i].key) == Some(all[i].value)
  {
    var front := all[..|all| - 1];
    var last := all[|all| - 1];
    PutGet(Collect(front), last.key, last.value, all[i].key);
    if i < |all| - 1 {
      assert front[i] == all[i];
      assert LastWithKey(front, i);
      CollectLastWins(front, i);
    }
  }

  /** Collecting one more setting assigns it. */
  lemma CollectStep(all: seq<Setting>, i: int)
    requires 0 <= i < |all|
    ensures Collect(all[..i + 1]) == Put(Collect(all[..i]), all[i].key, all[i].value)
  {
    assert all[..i + 1][..i] == all[..i];
  }

  /** The load effect's loop: starts from `{}` and assigns every flattened
      setting in turn. */
  method InitialSettings(groups: seq<seq<Setting>>) returns (rec: Record)
    ensures rec == Collect(Flatten(groups))
  {
    var all := Flatten(groups);
    rec := [];
    var i := 0;
    while i < |all|
      invariant 0 <= i <= |all|
      invariant rec == Collect(all[..i])
    {
      CollectStep(all, i);
      rec := Put(rec, all[i].key, all[i].value);
      i := i + 1;
    }
    assert all[..i] == all;
  }

  /** The save payload, which is the record's entries, has exactly one entry
      per key of the buffer, and each carries the value the buffer holds. */
  lemma PayloadOneEntryPerKey(rec: Record)
    requires DistinctKeys(rec)
    ensures forall k :: k in Keys(rec) <==> exists i :: 0 <= i < |rec| && rec[i].key == k
    ensures forall i, j :: 0 <= i < j < |rec| ==> rec[i].key != rec[j].key
    ensures forall i :: 0 <= i < |rec| ==> Get(rec, rec[i].key) == Some(rec[i].value)
  {
    forall k
      ensures k in Keys(rec) <==> exists i :: 0 <= i < |rec| && rec[i].key == k
    {
      KeysAt(rec, k);
    }
    DistinctKeysAt(rec);
  }

  /** Two settings with one key: only the later one's value is kept. */
  lemma LaterDuplicateWins(a: Setting, b: Setting)
    requires a.key == b.key
    ensures Collect([a, b]) == [Entry(b.key, b.value)]
  {
    assert [a, b][..1] == [a];
    assert [a][..0] == [];
    assert Collect([a]) == [Entry(a.key, a.value)];
  }

  /** The screen's state: the edit buffer, the dirty flag, and the payloads
      handed to `updateSettings`, in order. */
  class SettingsPage {
    var localSettings: Record
    var hasChanges: bool
    var sent: seq<Record>

    ghost predicate Valid()
      reads this
    {
      DistinctKeys(localSettings)
    }

    constructor ()
      ensures Valid() && localSettings == [] && !hasChanges && sent == []
    {
      localSettings := [];
      hasChanges := false;
      sent := [];
    }

    /** The load effect: when the response has data, the buffer is replaced
        wholesale by the collected settings; the dirty flag is left alone. */
    method SettingsLoaded(data: Option<seq<seq<Setting>>>)
      requires Valid()
      modifies this
      ensures Valid()
      ensures data.Some? ==> localSettings == Collect(Flatten(data.value))
      ensures data.None? ==> localSettings == old(localSettings)
      ensures hasChanges == old(hasChanges) && sent == old(sent)
    {
      if data.Some? {
        var rec := InitialSettings(data.value);
        localSettings := rec;
      }
    }

    /** `handleChange`: one key takes the new value and the buffer is dirty. */
    method HandleChange(k: string, v: SettingValue)
      requires Valid()
      modifies this
      ensures Valid()
      ensures localSettings == Put(old(localSettings), k, v)
      ensures hasChanges && sent == old(sent)
    {
      localSettings := Put(localSettings, k, v);
      hasChanges := true;
    }

    /** The Save button is disabled exactly when nothing has changed. */
    predicate SaveDisabled()
      reads this
    {
      !hasChanges
    }

    /** `handleSave`, with the outcome of the update request as a parameter:
        nothing happens on a clean buffer; otherwise every entry is sent, and
        the buffer is clean again only if the request succeeded. */
    method HandleSave(updateSucceeds: bool) returns (payload: Option<Record>)
      requires Valid()
      modifies this
      ensures Valid() && localSettings == old(localSettings)
      ensures old(SaveDisabled()) ==> payload.None? && hasChanges == old(hasChanges) && sent == old(sent)
      ensures !old(SaveDisabled()) ==> payload == Some(localSettings) && sent == old(sent) + [localSettings]
      ensures !old(SaveDisabled()) ==> hasChanges == !updateSucceeds
    {
      if !hasChanges {
        return None;
      }
      payload := Some(localSettings);
      sent := sent + [localSettings];
      if updateSucceeds {
        hasChanges := false;
      }
    }
  }
}

/** What both generators learn: a transition table from states to the units seen
    right after them, duplicates kept, and the list of start states. Training only
    ever pushes onto these, and that is all this module describes. */
module Training {

  /** A generator's learned data: `transitions` and `startStates`. The background
      worker posts exactly this pair back to the main thread. */
  datatype Tables<U> = Tables(transitions: map<string, seq<U>>, startStates: seq<string>)

  /** The tables of a generator before training. */
  function Empty<U>(): Tables<U> {
    Tables(map[], [])
  }

  /** The successor list under `key`, or the empty list when there is none. */
  function Get<U>(tr: map<string, seq<U>>, key: string): seq<U> {
    if key in tr then tr[key] else []
  }

  /** `if (!tr[key]) tr[key] = []; tr[key].push(u);` */
  function Push<U>(tr: map<string, seq<U>>, key: string, u: U): map<string, seq<U>> {
    tr[key := Get(tr, key) + [u]]
  }

  /** Pushes `succs[j]` under `keys[j]` for j = 0, 1, ..., n - 1 in turn. */
  function AddFirst<U>(tr: map<string, seq<U>>, keys: seq<string>, succs: seq<U>, n: nat): map<string, seq<U>>
    requires |keys| == |succs| && n <= |keys|
  {
    if n == 0 then tr else Push(AddFirst(tr, keys, succs, n - 1), keys[n - 1], succs[n - 1])
  }

  /** Pushes every `succs[j]` under `keys[j]`, in order. */
  function AddAll<U>(tr: map<string, seq<U>>, keys: seq<string>, succs: seq<U>): map<string, seq<U>>
    requires |keys| == |succs|
  {
    AddFirst(tr, keys, succs, |keys|)
  }

  /** The units `succs[j]`, j < n, whose `keys[j]` is `key`, in order. */
  function FollowersFirst<U>(keys: seq<string>, succs: seq<U>, key: string, n: nat): seq<U>
    requires |keys| == |succs| && n <= |keys|
  {
    if n == 0 then []
    else FollowersFirst(keys, succs, key, n - 1) + (if keys[n - 1] == key then [succs[n - 1]] else [])
  }

  /** The units `succs[j]` whose `keys[j]` is `key`, in order. */
  function Followers<U>(keys: seq<string>, succs: seq<U>, key: string): seq<U>
    requires |keys| == |succs|
  {
    FollowersFirst(keys, succs, key, |keys|)
  }

  /** The total number of successors recorded in `tr`, over all keys. */
  ghost function Size<U>(tr: map<string, seq<U>>): nat
    decreases |tr|
  {
    if tr == map[] then 0
    else
      var k :| k in tr;
      assert |(tr - {k}).Keys| < |tr.Keys| by { assert (tr - {k}).Keys == tr.Keys - {k}; }
      |tr[k]| + Size(tr - {k})
  }

  /** Size may be computed by taking out any one key first. */
  lemma {:induction false} SizeWithout<U>(tr: map<string, seq<U>>, k: string)
    requires k in tr
    ensures Size(tr) == |tr[k]| + Size(tr - {k})
    decreases |tr|
  {
    var j :| j in tr && Size(tr) == |tr[j]| + Size(tr - {j});
    if j != k {
      assert |(tr - {j}).Keys| < |tr.Keys| by { assert (tr - {j}).Keys == tr.Keys - {j}; }
      assert |(tr - {k}).Keys| < |tr.Keys| by { assert (tr - {k}).Keys == tr.Keys - {k}; }
      SizeWithout(tr - {j}, k);
      SizeWithout(tr - {k}, j);
      assert tr - {j} - {k} == tr - {k} - {j};
    }
  }

  /** Every push records exactly one more successor. */
  lemma SizePush<U>(tr: map<string, seq<U>>, key: string, u: U)
    ensures Size(Push(tr, key, u)) == Size(tr) + 1
  {
    var r := Push(tr, key, u);
    SizeWithout(r, key);
    if key in tr {
      SizeWithout(tr, key);
      assert r - {key} == tr - {key};
    } else {
      assert r - {key} == tr;
    }
  }

  /** Pushing `n` successors records exactly `n` more. */
  lemma {:induction false} AddFirstSize<U>(tr: map<string, seq<U>>, keys: seq<string>, succs: seq<U>, n: nat)
    requires |keys| == |succs| && n <= |keys|
    ensures Size(AddFirst(tr, keys, succs, n)) == Size(tr) + n
  {
    if n > 0 {
      AddFirstSize(tr, keys, succs, n - 1);
      SizePush(AddFirst(tr, keys, succs, n - 1), keys[n - 1], succs[n - 1]);
    }
  }

  /** One push appends `u` under `key` and leaves every other key as it was. */
  lemma GetPush<U>(tr: map<string, seq<U>>, key: string, u: U, k: string)
    ensures Get(Push(tr, key, u), k) == Get(tr, k) + (if k == key then [u] else [])
    ensures k in Push(tr, key, u) <==> k in tr || k == key
  {
    if k != key {
      assert Get(tr, k) + [] == Get(tr, k);
    }
  }

  /** After `n` pushes, each key holds its old list followed by exactly the units
      pushed under it, in push order. */
  lemma {:induction false} AddFirstAt<U>(tr: map<string, seq<U>>, keys: seq<string>, succs: seq<U>, key: string, n: nat)
    requires |keys| == |succs| && n <= |keys|
    ensures Get(AddFirst(tr, keys, succs, n), key) == Get(tr, key) + FollowersFirst(keys, succs, key, n)
  {
    if n > 0 {
      var prev := AddFirst(tr, keys, succs, n - 1);
      var before := FollowersFirst(keys, succs, key, n - 1);
      var last: seq<U> := if keys[n - 1] == key then [succs[n - 1]] else [];
      assert Get(prev, key) == Get(tr, key) + before by {
        AddFirstAt(tr, keys, succs, key, n - 1);
      }
      assert Get(AddFirst(tr, keys, succs, n), key) == Get(prev, key) + last by {
        GetPush(prev, keys[n - 1], succs[n - 1], key);
      }
      assert (Get(tr, key) + before) + last == Get(tr, key) + (before + last);
    }
  }

  /** After `n` pushes a key is present iff it was before or was pushed under. */
  lemma {:induction false} AddFirstHas<U>(tr: map<string, seq<U>>, keys: seq<string>, succs: seq<U>, key: string, n: nat)
    requires |keys| == |succs| && n <= |keys|
    ensures key in AddFirst(tr, keys, succs, n) <==> key in tr || exists j | 0 <= j < n :: keys[j] == key
  {
    if n > 0 {
      var prev := AddFirst(tr, keys, succs, n - 1);
      assert key in prev <==> key in tr || exists j | 0 <= j < n - 1 :: keys[j] == key by {
        AddFirstHas(tr, keys, succs, key, n - 1);
      }
      assert key in AddFirst(tr, keys, succs, n) <==> key in prev || keys[n - 1] == key by {
        GetPush(prev, keys[n - 1], succs[n - 1], key);
      }
      if exists j | 0 <= j < n :: keys[j] == key {
        var j :| 0 <= j < n && keys[j] == key;
        if j < n - 1 {
          assert exists i | 0 <= i < n - 1 :: keys[i] == key;
        }
      }
    }
  }

  /** Pushes only ever create keys that were pushed under, never leave a
      successor list empty, and never drop or shorten an existing one. */
  lemma {:induction false} AddFirstKeys<U>(tr: map<string, seq<U>>, keys: seq<string>, succs: seq<U>, n: nat)
    requires |keys| == |succs| && n <= |keys|
    ensures forall k | k in AddFirst(tr, keys, succs, n) :: k in tr || k in keys
    ensures forall k | k in AddFirst(tr, keys, succs, n) && k !in tr :: AddFirst(tr, keys, succs, n)[k] != []
    ensures forall k | k in tr :: k in AddFirst(tr, keys, succs, n) && |AddFirst(tr, keys, succs, n)[k]| >= |tr[k]|
  {
    if n > 0 {
      AddFirstKeys(tr, keys, succs, n - 1);
    }
  }

  /** A unit follows `key` among the first `n` pushes iff it was pushed under
      `key` at one of them. */
  lemma {:induction false} FollowersFirstMember<U>(keys: seq<string>, succs: seq<U>, key: string, u: U, n: nat)
    requires |keys| == |succs| && n <= |keys|
    ensures u in FollowersFirst(keys, succs, key, n) <==> exists j | 0 <= j < n :: keys[j] == key && succs[j] == u
  {
    if n > 0 {
      FollowersFirstMember(keys, succs, key, u, n - 1);
    }
  }
}

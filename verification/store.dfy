/** The player store `players: Record<string, Player>`, keyed by chat id.
    It is kept as a list of entries in JavaScript's own-property
    enumeration order, which is what `Object.values` (and so the
    leaderboard) sees: keys that are array indices come first in ascending
    numeric order, all other keys follow in insertion order. A chat id's
    decimal string is an array index exactly when the id is in
    [0, 2^32 - 2]; group chats have negative ids. */
module Store {
  import opened Wrappers
  import opened Types

  datatype Entry = Entry(key: int, player: Player)

  type Players = seq<Entry>

  predicate IsIndexKey(k: int) { 0 <= k <= 0xFFFF_FFFE }

  /** Keys are distinct, and index keys come first in ascending order. */
  predicate Ordered(s: Players) {
    && (forall i, j :: 0 <= i < j < |s| ==> s[i].key != s[j].key)
    && (forall i, j :: 0 <= i < j < |s| && IsIndexKey(s[j].key) ==> IsIndexKey(s[i].key) && s[i].key < s[j].key)
  }

  /** Every stored record satisfies the record invariant. */
  predicate AllValid(s: Players) {
    forall i :: 0 <= i < |s| ==> Valid(s[i].player)
  }

  function Keys(s: Players): set<int> {
    set i | 0 <= i < |s| :: s[i].key
  }

  lemma KeysCons(s: Players)
    requires |s| > 0
    ensures Keys(s) == {s[0].key} + Keys(s[1..])
  {
    forall x | x in Keys(s) ensures x in {s[0].key} + Keys(s[1..]) {
      var i :| 0 <= i < |s| && s[i].key == x;
      if i > 0 { assert s[1..][i - 1].key == x; }
    }
    forall x | x in Keys(s[1..]) ensures x in Keys(s) {
      var i :| 0 <= i < |s[1..]| && s[1..][i].key == x;
      assert s[i + 1].key == x;
    }
  }

  /** `players[key]`: the first record stored under `key`, if any. */
  function Lookup(s: Players, k: int): (r: Option<Player>)
    ensures r.Some? <==> k in Keys(s)
    ensures r.Some? ==> Entry(k, r.value) in s
  {
    if |s| == 0 then None
    else if s[0].key == k then Some(s[0].player)
    else
      KeysCons(s);
      Lookup(s[1..], k)
  }

  /** `Object.values(players)`, in enumeration order. */
  function Values(s: Players): (vs: seq<Player>)
    ensures |vs| == |s|
    ensures forall i :: 0 <= i < |s| ==> vs[i] == s[i].player
  {
    seq(|s|, i requires 0 <= i < |s| => s[i].player)
  }

  /** Overwriting an existing key in place: only that key's record changes. */
  function Replace(s: Players, k: int, p: Player): (r: Players)
    ensures |r| == |s| && Keys(r) == Keys(s)
    ensures forall i :: 0 <= i < |s| ==> r[i].key == s[i].key
    ensures forall i :: 0 <= i < |s| ==> r[i].player == (if s[i].key == k then p else s[i].player)
    ensures forall k' :: Lookup(r, k') == if k' == k && k in Keys(s) then Some(p) else Lookup(s, k')
    decreases |s|
  {
    if |s| == 0 then []
    else
      var rest := Replace(s[1..], k, p);
      var r := [if s[0].key == k then Entry(k, p) else s[0]] + rest;
      assert r[1..] == rest;
      KeysCons(s);
      KeysCons(r);
      r
  }

  /** A new index key goes in front of the first entry that is not a smaller
      index key; the other entries keep their relative order. */
  function InsertIndex(s: Players, k: int, p: Player): (r: Players)
    ensures |r| == |s| + 1
    ensures Keys(r) == Keys(s) + {k}
    ensures forall e :: e in r <==> e in s || e == Entry(k, p)
    ensures forall k' :: k' != k ==> Lookup(r, k') == Lookup(s, k')
    ensures k !in Keys(s) ==> Lookup(r, k) == Some(p)
    decreases |s|
  {
    if |s| == 0 || !IsIndexKey(s[0].key) || k < s[0].key then
      var r := [Entry(k, p)] + s;
      assert r[1..] == s;
      KeysCons(r);
      r
    else
      var rest := InsertIndex(s[1..], k, p);
      var r := [s[0]] + rest;
      assert r[1..] == rest;
      assert s == [s[0]] + s[1..];
      KeysCons(s);
      KeysCons(r);
      r
  }

  /** `h` may stand in front of every entry of `t` in an ordered store. */
  predicate Precedes(h: Entry, t: Players) {
    forall e :: e in t ==> h.key != e.key && (IsIndexKey(e.key) ==> IsIndexKey(h.key) && h.key < e.key)
  }

  lemma OrderedCons(h: Entry, t: Players)
    ensures Ordered([h] + t) <==> Ordered(t) && Precedes(h, t)
  {
    var s := [h] + t;
    assert s[1..] == t;
    if Ordered(t) && Precedes(h, t) {
      forall i, j | 0 <= i < j < |s|
        ensures s[i].key != s[j].key
        ensures IsIndexKey(s[j].key) ==> IsIndexKey(s[i].key) && s[i].key < s[j].key
      {
        assert s[j] == t[j - 1];
        if i > 0 { assert s[i] == t[i - 1]; } else { assert t[j - 1] in t; }
      }
    }
    if Ordered(s) {
      forall e | e in t
        ensures h.key != e.key && (IsIndexKey(e.key) ==> IsIndexKey(h.key) && h.key < e.key)
      {
        var j :| 0 <= j < |t| && t[j] == e;
        assert s[0] == h && s[j + 1] == e;
        assert 0 < j + 1 < |s|;
      }
    }
  }

  /** A new index key below the first stored index key may stand in front. */
  lemma FrontPrecedes(s: Players, h: Entry)
    requires Ordered(s) && IsIndexKey(h.key) && h.key !in Keys(s)
    requires |s| == 0 || !IsIndexKey(s[0].key) || h.key < s[0].key
    ensures Precedes(h, s)
  {
    forall e | e in s
      ensures h.key != e.key && (IsIndexKey(e.key) ==> IsIndexKey(h.key) && h.key < e.key)
    {
      var j :| 0 <= j < |s| && s[j] == e;
      assert e.key in Keys(s);
    }
  }

  lemma {:induction false} InsertIndexOrdered(s: Players, k: int, p: Player)
    requires IsIndexKey(k) && k !in Keys(s) && Ordered(s)
    ensures Ordered(InsertIndex(s, k, p))
    decreases |s|
  {
    if |s| == 0 || !IsIndexKey(s[0].key) || k < s[0].key {
      FrontPrecedes(s, Entry(k, p));
      OrderedCons(Entry(k, p), s);
    } else {
      var rest := InsertIndex(s[1..], k, p);
      assert s == [s[0]] + s[1..];
      KeysCons(s);
      OrderedCons(s[0], s[1..]);
      InsertIndexOrdered(s[1..], k, p);
      assert Precedes(s[0], rest) by {
        forall e | e in rest
          ensures s[0].key != e.key && (IsIndexKey(e.key) ==> IsIndexKey(s[0].key) && s[0].key < e.key)
        {
          assert e in s[1..] || e == Entry(k, p);
        }
      }
      OrderedCons(s[0], rest);
    }
  }

  /** A new non-index key goes at the end. */
  lemma {:induction false} AppendLookup(s: Players, e: Entry, k': int)
    ensures Lookup(s + [e], k') == if k' in Keys(s) then Lookup(s, k') else if e.key == k' then Some(e.player) else None
    decreases |s|
  {
    if |s| == 0 {
      assert s + [e] == [e];
    } else {
      assert (s + [e])[1..] == s[1..] + [e];
      KeysCons(s);
      AppendLookup(s[1..], e, k');
    }
  }

  function Append(s: Players, k: int, p: Player): (r: Players)
    requires k !in Keys(s)
    ensures |r| == |s| + 1
    ensures Keys(r) == Keys(s) + {k}
    ensures forall e :: e in r <==> e in s || e == Entry(k, p)
    ensures forall k' :: k' != k ==> Lookup(r, k') == Lookup(s, k')
    ensures Lookup(r, k) == Some(p)
  {
    var r := s + [Entry(k, p)];
    forall k' ensures Lookup(r, k') == if k' in Keys(s) then Lookup(s, k') else if k == k' then Some(p) else None {
      AppendLookup(s, Entry(k, p), k');
    }
    assert Keys(r) == Keys(s) + {k} by {
      forall x | x in Keys(r) ensures x in Keys(s) + {k} {
        var i :| 0 <= i < |r| && r[i].key == x;
        if i < |s| { assert s[i].key == x; }
      }
      forall x | x in Keys(s) ensures x in Keys(r) {
        var i :| 0 <= i < |s| && s[i].key == x;
        assert r[i].key == x;
      }
      assert r[|s|].key == k;
    }
    r
  }

  lemma AppendOrdered(s: Players, k: int, p: Player)
    requires k !in Keys(s) && !IsIndexKey(k) && Ordered(s)
    ensures Ordered(Append(s, k, p))
  {
    var r := Append(s, k, p);
    forall i, j | 0 <= i < j < |r| ensures r[i].key != r[j].key {
      if j == |s| { assert s[i].key in Keys(s); }
    }
  }

  lemma AllValidMembers(s: Players, r: Players, extra: Entry)
    requires AllValid(s) && Valid(extra.player)
    requires forall e :: e in r ==> e in s || e == extra
    ensures AllValid(r)
  {
    forall i | 0 <= i < |r| ensures Valid(r[i].player) {
      assert r[i] in r;
      if r[i] != extra {
        var m :| 0 <= m < |s| && s[m] == r[i];
      }
    }
  }

  /** `{ ...players, [key]: player }`: afterwards `key` holds `player`, every
      other key holds what it held, the store grows by one entry exactly
      when the key is new, an overwrite keeps the key order, and both the
      enumeration-order invariant and the record invariant are kept. */
  function Put(s: Players, k: int, p: Player): (r: Players)
    ensures Lookup(r, k) == Some(p)
    ensures forall k' :: k' != k ==> Lookup(r, k') == Lookup(s, k')
    ensures Keys(r) == Keys(s) + {k}
    ensures |r| == |s| + (if k in Keys(s) then 0 else 1)
    ensures k in Keys(s) ==> forall i :: 0 <= i < |s| ==> r[i].key == s[i].key
    ensures Ordered(s) ==> Ordered(r)
    ensures AllValid(s) && Valid(p) ==> AllValid(r)
  {
    if k in Keys(s) then
      var r := Replace(s, k, p);
      assert Ordered(s) ==> Ordered(r) by {
        if Ordered(s) { ReplaceOrdered(s, k, p); }
      }
      r
    else
      var r := if IsIndexKey(k) then InsertIndex(s, k, p) else Append(s, k, p);
      assert Ordered(s) ==> Ordered(r) by {
        if Ordered(s) {
          if IsIndexKey(k) { InsertIndexOrdered(s, k, p); } else { AppendOrdered(s, k, p); }
        }
      }
      assert AllValid(s) && Valid(p) ==> AllValid(r) by {
        if AllValid(s) && Valid(p) { AllValidMembers(s, r, Entry(k, p)); }
      }
      r
  }

  /** Overwriting in place keeps the key order. */
  lemma ReplaceOrdered(s: Players, k: int, p: Player)
    requires Ordered(s)
    ensures Ordered(Replace(s, k, p))
  {
    var r := Replace(s, k, p);
    assert forall i :: 0 <= i < |s| ==> r[i].key == s[i].key;
  }

  /** Writing back the record a key already holds leaves an ordered store as it was. */
  lemma PutSame(s: Players, k: int, p: Player)
    requires Ordered(s) && Lookup(s, k) == Some(p)
    ensures Put(s, k, p) == s
  {
    var r := Put(s, k, p);
    var at :| 0 <= at < |s| && s[at] == Entry(k, p);
    forall i | 0 <= i < |s| ensures r[i] == s[i] {
      if s[i].key == k {
        assert i == at;
      }
    }
  }
}

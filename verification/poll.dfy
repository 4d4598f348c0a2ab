/** `pollUpdates`: one round of long polling. The bot fetches the oldest
    pending updates at or after its offset, at most `BatchLimit`, answers each texted message in order and
    moves the offset past each update, texted or not. */
module Poll {
  import opened Wrappers
  import opened Store
  import opened Commands
  import opened Handler

  datatype Message = Message(chatId: int, firstName: string, text: string)

  /** One update; `message` is absent for updates that are not messages. */
  datatype Update = Update(updateId: int, message: Option<Message>)

  /** The bot's state between rounds: the player store and the offset. */
  datatype Bot = Bot(store: Players, offset: int)

  /** One reply sent to one chat. */
  datatype Sent = Sent(chatId: int, reply: Reply)

  /** `first_name || "Adventurer"`. */
  function DisplayName(firstName: string): string {
    if firstName == "" then "Adventurer" else firstName
  }

  /** Only a message with non-empty text is answered. */
  predicate Texted(u: Update) {
    u.message.Some? && u.message.value.text != ""
  }

  function CountTexted(us: seq<Update>): nat {
    if |us| == 0 then 0 else (if Texted(us[0]) then 1 else 0) + CountTexted(us[1..])
  }

  /** The chats of the texted updates, in update order. */
  function TextedChats(us: seq<Update>): seq<int> {
    if |us| == 0 then []
    else (if Texted(us[0]) then [us[0].message.value.chatId] else []) + TextedChats(us[1..])
  }

  /** The chats replies went to, in sending order. */
  function ChatsOf(sent: seq<Sent>): (cs: seq<int>)
    ensures |cs| == |sent|
  {
    if |sent| == 0 then [] else [sent[0].chatId] + ChatsOf(sent[1..])
  }

  lemma {:induction false} ChatsOfAppend(a: seq<Sent>, b: seq<Sent>)
    ensures ChatsOf(a + b) == ChatsOf(a) + ChatsOf(b)
    decreases |a|
  {
    if |a| == 0 {
      assert a + b == b;
    } else {
      assert (a + b)[1..] == a[1..] + b;
      ChatsOfAppend(a[1..], b);
    }
  }

  /** The bot invariant: the store is ordered and every record valid. */
  predicate Good(b: Bot) {
    Ordered(b.store) && AllValid(b.store)
  }

  /** Handling one update: a texted message is processed against the
      current store, and the offset always moves past the update. */
  function Handle(b: Bot, u: Update, env: Env): (r: (Bot, seq<Sent>))
    requires Good(b)
    ensures Good(r.0)
    ensures r.0.offset == u.updateId + 1
    ensures |r.1| == if Texted(u) then 1 else 0
    ensures Texted(u) ==> r.1[0].chatId == u.message.value.chatId
    ensures Texted(u) ==>
      var done := Process(b.store, u.message.value.chatId, DisplayName(u.message.value.firstName), u.message.value.text, env);
      r.0.store == done.0 && r.1[0].reply == done.1
    ensures !Texted(u) ==> r.0.store == b.store
  {
    if Texted(u) then
      var m := u.message.value;
      var done := Process(b.store, m.chatId, DisplayName(m.firstName), m.text, env);
      (Bot(done.0, u.updateId + 1), [Sent(m.chatId, done.1)])
    else
      (b.(offset := u.updateId + 1), [])
  }

  /** One round over the fetched updates, `envs[i]` supplying the draws of
      update `i`. Every texted update is answered exactly once, in update
      order and to its own chat, and the offset ends just past the last
      update. */
  function Round(b: Bot, us: seq<Update>, envs: seq<Env>): (r: (Bot, seq<Sent>))
    requires Good(b) && |envs| == |us|
    ensures Good(r.0)
    ensures |us| == 0 ==> r == (b, [])
    ensures |us| > 0 ==> r.0.offset == us[|us| - 1].updateId + 1
    ensures |r.1| == CountTexted(us)
    ensures ChatsOf(r.1) == TextedChats(us)
    decreases |us|
  {
    if |us| == 0 then (b, [])
    else
      var first := Handle(b, us[0], envs[0]);
      var rest := Round(first.0, us[1..], envs[1..]);
      assert |us| > 1 ==> us[1..][|us[1..]| - 1] == us[|us| - 1];
      ChatsOfAppend(first.1, rest.1);
      (rest.0, first.1 + rest.1)
  }

  // ---------------------------------------------------------------- the update queue

  /** Update ids strictly increase along the queue. */
  predicate Increasing(q: seq<Update>) {
    forall i, j :: 0 <= i < j < |q| ==> q[i].updateId < q[j].updateId
  }

  /** The most updates one `getUpdates` call returns when no `limit` is
      given, as in the Telegram Bot API. */
  const BatchLimit := 100

  /** The queued updates with an id at or after the offset: what the server
      still holds for the bot. */
  function Pending(q: seq<Update>, offset: int): (r: seq<Update>)
    ensures forall u :: u in r <==> u in q && u.updateId >= offset
    ensures |r| <= |q|
    decreases |q|
  {
    if |q| == 0 then []
    else
      var rest := Pending(q[1..], offset);
      assert forall u :: u in q <==> u == q[0] || u in q[1..];
      if q[0].updateId >= offset then [q[0]] + rest else rest
  }

  /** `getUpdates?offset=...` without a `limit`: the oldest pending
      updates, at most `BatchLimit` of them, in queue order. */
  function Fetch(q: seq<Update>, offset: int): (r: seq<Update>)
    ensures |r| == if |Pending(q, offset)| <= BatchLimit then |Pending(q, offset)| else BatchLimit
    ensures r == Pending(q, offset)[..|r|]
    ensures forall u :: u in r ==> u in q && u.updateId >= offset
  {
    var p := Pending(q, offset);
    if |p| <= BatchLimit then p else p[..BatchLimit]
  }

  /** A last queued update at or after the offset is pending, and last. */
  lemma {:induction false} PendingKeepsLast(q: seq<Update>, offset: int)
    requires |q| > 0 && q[|q| - 1].updateId >= offset
    ensures |Pending(q, offset)| > 0 && Pending(q, offset)[|Pending(q, offset)| - 1] == q[|q| - 1]
    decreases |q|
  {
    if |q| > 1 {
      var rest := Pending(q[1..], offset);
      assert q[1..][|q| - 2] == q[|q| - 1];
      PendingKeepsLast(q[1..], offset);
      if q[0].updateId >= offset {
        assert Pending(q, offset) == [q[0]] + rest;
      }
    }
  }

  /** In an increasing queue, whatever is pending ends with the queue's last update. */
  lemma PendingLast(q: seq<Update>, offset: int)
    requires Increasing(q)
    ensures |Pending(q, offset)| > 0 ==> Pending(q, offset)[|Pending(q, offset)| - 1] == q[|q| - 1]
  {
    var r := Pending(q, offset);
    if |r| > 0 {
      assert r[0] in q;
      var i :| 0 <= i < |q| && q[i] == r[0];
      assert q[i].updateId <= q[|q| - 1].updateId;
      PendingKeepsLast(q, offset);
    }
  }

  /** The tail of an increasing list is increasing. */
  lemma IncreasingTail(q: seq<Update>)
    requires Increasing(q) && |q| > 0
    ensures Increasing(q[1..])
  {
    forall i, j | 0 <= i < j < |q[1..]| ensures q[1..][i].updateId < q[1..][j].updateId {
      assert q[1..][i] == q[i + 1] && q[1..][j] == q[j + 1];
    }
  }

  /** An update before every update of an increasing list extends it. */
  lemma IncreasingCons(x: Update, rest: seq<Update>)
    requires Increasing(rest)
    requires forall k :: 0 <= k < |rest| ==> x.updateId < rest[k].updateId
    ensures Increasing([x] + rest)
  {
    var r := [x] + rest;
    forall i, j | 0 <= i < j < |r| ensures r[i].updateId < r[j].updateId {
      assert r[j] == rest[j - 1];
      if i > 0 {
        assert r[i] == rest[i - 1];
      }
    }
  }

  /** The pending part of an increasing queue is increasing. */
  lemma {:induction false} PendingIncreasing(q: seq<Update>, offset: int)
    requires Increasing(q)
    ensures Increasing(Pending(q, offset))
    decreases |q|
  {
    if |q| > 0 {
      var rest := Pending(q[1..], offset);
      IncreasingTail(q);
      PendingIncreasing(q[1..], offset);
      if q[0].updateId >= offset {
        forall k | 0 <= k < |rest| ensures q[0].updateId < rest[k].updateId {
          assert rest[k] in q[1..];
          var i :| 0 <= i < |q[1..]| && q[1..][i] == rest[k];
          assert q[1..][i] == q[i + 1];
        }
        IncreasingCons(q[0], rest);
      }
    }
  }

  /** Every update of a queue at or after the offset is pending. */
  lemma {:induction false} PendingAll(q: seq<Update>, offset: int)
    requires forall i :: 0 <= i < |q| ==> q[i].updateId >= offset
    ensures Pending(q, offset) == q
    decreases |q|
  {
    if |q| > 0 {
      assert forall i :: 0 <= i < |q[1..]| ==> q[1..][i] == q[i + 1];
      PendingAll(q[1..], offset);
      assert [q[0]] + q[1..] == q;
    }
  }

  /** Moving the offset forward twice is moving it once, to the later offset. */
  lemma {:induction false} PendingTwice(q: seq<Update>, offset: int, later: int)
    requires offset <= later
    ensures Pending(Pending(q, offset), later) == Pending(q, later)
    decreases |q|
  {
    if |q| > 0 {
      PendingTwice(q[1..], offset, later);
      if q[0].updateId >= offset {
        var p := [q[0]] + Pending(q[1..], offset);
        assert p[1..] == Pending(q[1..], offset);
      }
    }
  }

  /** In an increasing list, the offset just past its `k`-th update leaves
      exactly the updates after it. */
  lemma {:induction false} PendingPast(p: seq<Update>, k: nat)
    requires Increasing(p) && 0 < k <= |p|
    ensures Pending(p, p[k - 1].updateId + 1) == p[k..]
    decreases k
  {
    var next := p[k - 1].updateId + 1;
    IncreasingTail(p);
    if k == 1 {
      forall i | 0 <= i < |p[1..]| ensures p[1..][i].updateId >= next {
        assert p[1..][i] == p[i + 1];
      }
      PendingAll(p[1..], next);
    } else {
      assert p[1..][k - 2] == p[k - 1];
      PendingPast(p[1..], k - 1);
      assert p[1..][k - 1..] == p[k..];
    }
  }

  /** A round over one fetch leaves pending exactly the updates that did not
      fit into it; when no more than `BatchLimit` were pending, nothing is
      left. */
  lemma RoundConsumes(b: Bot, q: seq<Update>, envs: seq<Env>)
    requires Good(b) && Increasing(q)
    requires |envs| == |Fetch(q, b.offset)|
    ensures Pending(q, Round(b, Fetch(q, b.offset), envs).0.offset) == Pending(q, b.offset)[|Fetch(q, b.offset)|..]
    ensures |Pending(q, b.offset)| <= BatchLimit ==> Pending(q, Round(b, Fetch(q, b.offset), envs).0.offset) == []
  {
    var all := Pending(q, b.offset);
    var us := Fetch(q, b.offset);
    var offset := Round(b, us, envs).0.offset;
    var k := |us|;
    if k > 0 {
      assert us[k - 1] == all[k - 1];
      assert offset == all[k - 1].updateId + 1;
      assert all[k - 1] in all;
      PendingTwice(q, b.offset, offset);
      PendingIncreasing(q, b.offset);
      PendingPast(all, k);
    } else {
      assert all[0..] == all;
    }
  }

  // ---------------------------------------------------------------- as written

  /** The round as written. A handler that throws ends the round through
      the surrounding `catch`: the updates handled before it keep their
      effects and offset, the throwing update and the rest of the batch are
      dropped, and the offset is not moved past the throwing update. */
  function RoundAsWritten(b: Bot, us: seq<Update>, envs: seq<Env>): (r: (Bot, seq<Sent>))
    requires Good(b) && |envs| == |us|
    ensures Good(r.0)
    ensures |r.1| <= CountTexted(us)
    decreases |us|
  {
    if |us| == 0 then (b, [])
    else if Texted(us[0]) then
      var m := us[0].message.value;
      match ProcessAsWritten(b.store, m.chatId, DisplayName(m.firstName), m.text, envs[0])
      case None => (b, [])
      case Some(done) =>
        var rest := RoundAsWritten(Bot(done.0, us[0].updateId + 1), us[1..], envs[1..]);
        (rest.0, [Sent(m.chatId, done.1)] + rest.1)
    else
      RoundAsWritten(b.(offset := us[0].updateId + 1), us[1..], envs[1..])
  }

  /** Without a throwing handler, the round as written is the intended one. */
  lemma {:induction false} RoundAsWrittenAgrees(b: Bot, us: seq<Update>, envs: seq<Env>)
    requires Good(b) && |envs| == |us|
    requires forall i :: 0 <= i < |us| && Texted(us[i]) ==> Parse(us[i].message.value.text) != Hunt
    ensures RoundAsWritten(b, us, envs) == Round(b, us, envs)
    decreases |us|
  {
    if |us| > 0 {
      var first := Handle(b, us[0], envs[0]);
      forall i | 0 <= i < |us[1..]| && Texted(us[1..][i])
        ensures Parse(us[1..][i].message.value.text) != Hunt
      {
        assert us[1..][i] == us[i + 1];
      }
      RoundAsWrittenAgrees(first.0, us[1..], envs[1..]);
      var rest := Round(first.0, us[1..], envs[1..]);
      if Texted(us[0]) {
        var m := us[0].message.value;
        assert Parse(m.text) != Hunt;
        var done := ProcessAsWritten(b.store, m.chatId, DisplayName(m.firstName), m.text, envs[0]);
        assert done == Some(Process(b.store, m.chatId, DisplayName(m.firstName), m.text, envs[0]));
        assert first == (Bot(done.value.0, us[0].updateId + 1), [Sent(m.chatId, done.value.1)]);
        assert RoundAsWritten(b, us, envs)
          == (RoundAsWritten(first.0, us[1..], envs[1..]).0, first.1 + RoundAsWritten(first.0, us[1..], envs[1..]).1);
      } else {
        assert first.1 + rest.1 == rest.1;
      }
    }
  }

  /** The handler throws on `u`: a `/hunt` from a stored player below level 3. */
  predicate Throws(b: Bot, u: Update) {
    && Texted(u) && Parse(u.message.value.text) == Hunt
    && Lookup(b.store, u.message.value.chatId).Some?
    && Lookup(b.store, u.message.value.chatId).value.level < 3
  }

  /** Update `i` throws when it is reached, after the intended handling of
      the updates before it. */
  predicate ThrowsAt(b: Bot, us: seq<Update>, envs: seq<Env>, i: int)
    requires Good(b) && |envs| == |us| && 0 <= i < |us|
  {
    Throws(Round(b, us[..i], envs[..i]).0, us[i])
  }

  /** A round over a prefix of length `j` is the first update's handling
      followed by the round over the next `j - 1` updates. */
  lemma RoundPrefixStep(b: Bot, us: seq<Update>, envs: seq<Env>, j: nat)
    requires Good(b) && |envs| == |us| && 0 < j <= |us|
    ensures
      var first := Handle(b, us[0], envs[0]);
      var rest := Round(first.0, us[1..][..j - 1], envs[1..][..j - 1]);
      Round(b, us[..j], envs[..j]) == (rest.0, first.1 + rest.1)
  {
    assert us[..j][0] == us[0] && envs[..j][0] == envs[0];
    assert us[..j][1..] == us[1..][..j - 1];
    assert envs[..j][1..] == envs[1..][..j - 1];
  }

  /** Whether a later update throws is the same seen from the whole batch
      or from the state after the first update. */
  lemma ThrowsAtShift(b: Bot, us: seq<Update>, envs: seq<Env>, i: nat)
    requires Good(b) && |envs| == |us| && i + 1 < |us|
    ensures ThrowsAt(b, us, envs, i + 1) == ThrowsAt(Handle(b, us[0], envs[0]).0, us[1..], envs[1..], i)
  {
    RoundPrefixStep(b, us, envs, i + 1);
    assert us[1..][i] == us[i + 1];
  }

  /** A first update that throws ends the round before anything changes. */
  lemma ThrowAtHead(b: Bot, us: seq<Update>, envs: seq<Env>)
    requires Good(b) && |envs| == |us| && |us| > 0 && Throws(b, us[0])
    ensures RoundAsWritten(b, us, envs) == (b, [])
  {
  }

  /** Seen from the state after a first update that does not throw, the
      first throwing update is one place earlier. */
  lemma FirstThrowShift(b: Bot, us: seq<Update>, envs: seq<Env>, k: nat)
    requires Good(b) && |envs| == |us| && 0 < k <= |us|
    requires forall i :: 0 <= i < k ==> !ThrowsAt(b, us, envs, i)
    requires k == |us| || ThrowsAt(b, us, envs, k)
    ensures !Throws(b, us[0])
    ensures forall i :: 0 <= i < k - 1 ==> !ThrowsAt(Handle(b, us[0], envs[0]).0, us[1..], envs[1..], i)
    ensures k - 1 == |us[1..]| || ThrowsAt(Handle(b, us[0], envs[0]).0, us[1..], envs[1..], k - 1)
  {
    assert !ThrowsAt(b, us, envs, 0);
    assert us[..0] == [] && envs[..0] == [];
    forall i | 0 <= i < k - 1
      ensures !ThrowsAt(Handle(b, us[0], envs[0]).0, us[1..], envs[1..], i)
    {
      ThrowsAtShift(b, us, envs, i);
    }
    if k < |us| {
      ThrowsAtShift(b, us, envs, k - 1);
    }
  }

  /** A first update that does not throw is handled as intended, and the
      round as written goes on from there. */
  lemma HeadNotThrowing(b: Bot, us: seq<Update>, envs: seq<Env>)
    requires Good(b) && |envs| == |us| && |us| > 0 && !Throws(b, us[0])
    ensures RoundAsWritten(b, us, envs).0 == RoundAsWritten(Handle(b, us[0], envs[0]).0, us[1..], envs[1..]).0
    ensures RoundAsWritten(b, us, envs).1 == Handle(b, us[0], envs[0]).1 + RoundAsWritten(Handle(b, us[0], envs[0]).0, us[1..], envs[1..]).1
  {
    if Texted(us[0]) {
      var m := us[0].message.value;
      var done := ProcessAsWritten(b.store, m.chatId, DisplayName(m.firstName), m.text, envs[0]);
      assert done == Some(Process(b.store, m.chatId, DisplayName(m.firstName), m.text, envs[0]));
    }
  }

  /** Up to the first throwing update, the round as written is the intended
      round over the updates before it, and stops there; with no throwing
      update it is the intended round over the whole batch. */
  lemma {:induction false} FirstThrowEndsRound(b: Bot, us: seq<Update>, envs: seq<Env>, k: nat)
    requires Good(b) && |envs| == |us| && k <= |us|
    requires forall i :: 0 <= i < k ==> !ThrowsAt(b, us, envs, i)
    requires k == |us| || ThrowsAt(b, us, envs, k)
    ensures RoundAsWritten(b, us, envs) == Round(b, us[..k], envs[..k])
    decreases |us|
  {
    if k == 0 {
      assert us[..0] == [] && envs[..0] == [];
      if |us| > 0 {
        assert ThrowsAt(b, us, envs, 0);
        ThrowAtHead(b, us, envs);
      }
    } else {
      var first := Handle(b, us[0], envs[0]);
      FirstThrowShift(b, us, envs, k);
      FirstThrowEndsRound(first.0, us[1..], envs[1..], k - 1);
      RoundPrefixStep(b, us, envs, k);
      HeadNotThrowing(b, us, envs);
    }
  }

  /** A `/hunt` from a stored player below level 3 at the head of the
      batch throws, so the round changes nothing and sends nothing. The
      next round fetches from the same offset and meets the same update, so
      the bot answers nobody until the server drops that update. */
  lemma StuckOnLowHunt(b: Bot, q: seq<Update>, envs: seq<Env>)
    requires Good(b) && |envs| == |Fetch(q, b.offset)|
    requires |Fetch(q, b.offset)| > 0
    requires
      var u := Fetch(q, b.offset)[0];
      && Texted(u) && Parse(u.message.value.text) == Hunt
      && Lookup(b.store, u.message.value.chatId).Some?
      && Lookup(b.store, u.message.value.chatId).value.level < 3
    ensures RoundAsWritten(b, Fetch(q, b.offset), envs) == (b, [])
  {
  }

  /** The intended round answers the same batch, and only the updates that
      did not fit into it stay pending. */
  lemma LowHuntAnswered(b: Bot, q: seq<Update>, envs: seq<Env>)
    requires Good(b) && Increasing(q) && |envs| == |Fetch(q, b.offset)|
    requires |Fetch(q, b.offset)| > 0
    requires
      var u := Fetch(q, b.offset)[0];
      && Texted(u) && Parse(u.message.value.text) == Hunt
      && Lookup(b.store, u.message.value.chatId).Some?
      && Lookup(b.store, u.message.value.chatId).value.level < 3
    ensures |Round(b, Fetch(q, b.offset), envs).1| > 0
    ensures Round(b, Fetch(q, b.offset), envs).1[0].reply == NoMonster
    ensures Pending(q, Round(b, Fetch(q, b.offset), envs).0.offset) == Pending(q, b.offset)[|Fetch(q, b.offset)|..]
  {
    var us := Fetch(q, b.offset);
    var m := us[0].message.value;
    LowLevelHuntAnswered(b.store, m.chatId, DisplayName(m.firstName), m.text, envs[0]);
    RoundConsumes(b, q, envs);
  }
}

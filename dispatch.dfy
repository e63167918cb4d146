/**
 * Turning the keyword query's matches into notifications. Both the userbot's
 * handler and the bot's group handler loop over the matches and send one
 * message for each match whose `private_group_id` is truthy; a send is
 * modelled as a `Notification` value appended to the list of sends.
 */
module Dispatch {
  import opened Wrappers
  import opened Text
  import opened Database

  /** One `send_message` call: destination chat, then the fields the message text shows. */
  datatype Notification = Notification(
    chatId: int, groupName: string, username: string, userId: int, keyword: string, body: string)

  /** The notification a match with a destination produces. */
  function NotificationFor(m: Match, groupName: string, username: string, userId: int, body: string): Notification
    requires m.privateGroupId.Some?
  {
    Notification(m.privateGroupId.value, groupName, username, userId, m.keyword, body)
  }

  /**
   * The sends of the loop `for match in matches: if match['private_group_id']: send(...)`,
   * in match order: one per match whose private group id is truthy, none for the rest.
   */
  function Deliveries(matches: seq<Match>, groupName: string, username: string, userId: int, body: string): (r: seq<Notification>)
    ensures |r| <= |matches|
    ensures forall n :: n in r <==>
      exists m :: m in matches && IntTruthy(m.privateGroupId) && n == NotificationFor(m, groupName, username, userId, body)
    ensures (forall m :: m in matches ==> IntTruthy(m.privateGroupId)) ==> |r| == |matches|
    decreases |matches|
  {
    if matches == [] then []
    else
      var init := matches[..|matches| - 1];
      var last := matches[|matches| - 1];
      assert matches == init + [last];
      Deliveries(init, groupName, username, userId, body)
      + (if IntTruthy(last.privateGroupId) then [NotificationFor(last, groupName, username, userId, body)] else [])
  }

  /** The loop's step: handling one more match appends its notification, if any, to those already sent. */
  lemma DeliveriesStep(matches: seq<Match>, i: nat, groupName: string, username: string, userId: int, body: string)
    requires i < |matches|
    ensures Deliveries(matches[..i + 1], groupName, username, userId, body)
            == Deliveries(matches[..i], groupName, username, userId, body)
               + (if IntTruthy(matches[i].privateGroupId)
                  then [NotificationFor(matches[i], groupName, username, userId, body)] else [])
  {
    assert matches[..i + 1][..i] == matches[..i];
  }

  /** The positions of the matches that have a destination. */
  ghost function TruthyPositions(matches: seq<Match>): set<int> {
    set i | 0 <= i < |matches| && IntTruthy(matches[i].privateGroupId)
  }

  /** The positions with a truthy id among all matches: those among all but the last, plus the last if its id is truthy. */
  lemma TruthyPositionsSnoc(matches: seq<Match>)
    requires matches != []
    ensures var n := |matches| - 1;
      && TruthyPositions(matches)
         == TruthyPositions(matches[..n]) + (if IntTruthy(matches[n].privateGroupId) then {n} else {})
      && n !in TruthyPositions(matches[..n])
  {
    var n := |matches| - 1;
    var init := matches[..n];
    forall i | i in TruthyPositions(matches) && i < n ensures i in TruthyPositions(init) {
      assert init[i] == matches[i];
    }
  }

  /** One send per match with a truthy private group id, repeated matches included: nothing is deduplicated. */
  lemma {:induction false} DeliveriesCount(matches: seq<Match>, groupName: string, username: string, userId: int, body: string)
    ensures |Deliveries(matches, groupName, username, userId, body)| == |TruthyPositions(matches)|
    decreases |matches|
  {
    if matches != [] {
      DeliveriesCount(matches[..|matches| - 1], groupName, username, userId, body);
      TruthyPositionsSnoc(matches);
    }
  }

  /**
   * Sends keep the order of the matches: the sends for `a + b` are those for
   * `a`, then those for `b`. With the one-match case this fixes the list.
   */
  lemma {:induction false} DeliveriesConcat(a: seq<Match>, b: seq<Match>, groupName: string, username: string, userId: int, body: string)
    ensures Deliveries(a + b, groupName, username, userId, body)
         == Deliveries(a, groupName, username, userId, body) + Deliveries(b, groupName, username, userId, body)
    decreases |b|
  {
    if b == [] {
      assert a + b == a;
    } else {
      var init := b[..|b| - 1];
      assert (a + b)[..|a + b| - 1] == a + init;
      assert (a + b)[|a + b| - 1] == b[|b| - 1];
      DeliveriesConcat(a, init, groupName, username, userId, body);
    }
  }

  /** A single match yields its notification exactly when its private group id is truthy. */
  lemma DeliveriesSingle(m: Match, groupName: string, username: string, userId: int, body: string)
    ensures Deliveries([m], groupName, username, userId, body)
         == if IntTruthy(m.privateGroupId) then [NotificationFor(m, groupName, username, userId, body)] else []
  {
    assert [m][..0] == [];
  }

  /**
   * The send loop shared by both handlers: walks the matches in order and
   * sends one notification for each match with a truthy private group id.
   */
  method SendAll(matches: seq<Match>, groupName: string, username: string, userId: int, body: string)
    returns (sent: seq<Notification>)
    ensures sent == Deliveries(matches, groupName, username, userId, body)
  {
    sent := [];
    var i := 0;
    while i < |matches|
      invariant 0 <= i <= |matches|
      invariant sent == Deliveries(matches[..i], groupName, username, userId, body)
    {
      var m := matches[i];
      DeliveriesStep(matches, i, groupName, username, userId, body);
      if IntTruthy(m.privateGroupId) {
        sent := sent + [Notification(m.privateGroupId.value, groupName, username, userId, m.keyword, body)];
      }
      i := i + 1;
    }
    assert matches[..|matches|] == matches;
  }

  /**
   * End to end, for one message from chat `g`: a notification goes to chat
   * `c` with keyword `w` exactly when some keyword row `k` with text `w`
   * occurs in the message, its owner watches `g`, and the owner's private
   * group id is `c`, which is non-zero.
   */
  lemma DeliveredExactlyToWatchers(kws: seq<KeywordRow>, sgs: seq<SearchGroupRow>, pgs: seq<PrivateGroupRow>,
                                   g: int, text: string, groupName: string, username: string, userId: int, body: string)
    ensures forall n :: n in Deliveries(MatchingRows(JoinRows(kws, sgs, pgs, g), Lower(text)), groupName, username, userId, body) <==>
      n.chatId != 0 && n.groupName == groupName && n.username == username && n.userId == userId && n.body == body &&
      exists k :: k in kws && Registered(sgs, k.adminId, g) && Contains(Lower(k.keyword), Lower(text))
                  && PrivateGroupIdOf(pgs, k.adminId) == Some(n.chatId) && n.keyword == k.keyword
  {
    var ms := MatchingRows(JoinRows(kws, sgs, pgs, g), Lower(text));
    var ds := Deliveries(ms, groupName, username, userId, body);
    MatchMembers(kws, sgs, pgs, g, text);
    forall n | n in ds
      ensures exists k :: k in kws && Registered(sgs, k.adminId, g) && Contains(Lower(k.keyword), Lower(text))
                          && PrivateGroupIdOf(pgs, k.adminId) == Some(n.chatId) && n.keyword == k.keyword
    {
      var m :| m in ms && IntTruthy(m.privateGroupId) && n == NotificationFor(m, groupName, username, userId, body);
      var k :| k in kws && Registered(sgs, k.adminId, g) && Contains(Lower(k.keyword), Lower(text)) && m == JoinedRow(k, pgs);
    }
    forall n: Notification | n.chatId != 0 && n.groupName == groupName && n.username == username && n.userId == userId && n.body == body &&
               exists k :: k in kws && Registered(sgs, k.adminId, g) && Contains(Lower(k.keyword), Lower(text))
                           && PrivateGroupIdOf(pgs, k.adminId) == Some(n.chatId) && n.keyword == k.keyword
      ensures n in ds
    {
      var k :| k in kws && Registered(sgs, k.adminId, g) && Contains(Lower(k.keyword), Lower(text))
               && PrivateGroupIdOf(pgs, k.adminId) == Some(n.chatId) && n.keyword == k.keyword;
      var m := JoinedRow(k, pgs);
      assert m in ms;
      assert n == NotificationFor(m, groupName, username, userId, body);
    }
  }
}

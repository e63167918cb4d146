/**
 * The control bot: the conversation with the super-admin and the admins
 * (inline buttons and the text replies they prompt for), its own group
 * handler, and the settings it seeds at start-up.
 *
 * Each user has a small per-user state (`context.user_data`): what the bot
 * is waiting for, and, for the super-admin, the admin whose room is open.
 * A button press or a text message changes that state and the store; the
 * change is stated as a pure function of the old state (`CallbackEffect`,
 * `TextEffect`), and the `Bot` class's methods are proved to make it.
 */
module Bot {
  import opened Wrappers
  import opened Text
  import opened Rows
  import opened Database
  import opened Dispatch
  import opened Userbot

  // ------------------------------------------------------------------ per-user state

  /** The values `context.user_data['waiting']` takes. */
  datatype Waiting = AwaitAdminId | AwaitUserbotTime | AwaitKeyword | AwaitPrivateGroup | AwaitSearchGroup

  /** `context.user_data`: the pending prompt and the admin room the super-admin has entered. */
  datatype UserData = UserData(waiting: Option<Waiting>, viewingAdmin: Option<int>)

  const Fresh := UserData(None, None)

  /** `context.user_data.get('viewing_admin', user_id)`: whose keywords and groups a prompt edits. */
  function Acting(ud: UserData, userId: int): (r: int)
    ensures ud.viewingAdmin.None? ==> r == userId
    ensures ud.viewingAdmin.Some? ==> r == ud.viewingAdmin.value
  {
    ud.viewingAdmin.GetOr(userId)
  }

  /** The store and one user's state, as a button press or a text message leaves them. */
  datatype Session = Session(tables: Tables, user: UserData)

  /**
   * What `context.bot.get_chat(id)` returns for the id a user typed, with
   * Python's `None` folded into `""`; `None` when the call raises.
   */
  datatype Peer = Peer(username: string, firstName: string, title: string)

  // ------------------------------------------------------------------ parsing the replies

  /** The name stored for a new admin: `chat.username or chat.first_name or f"User_{new_id}"`. */
  function AdminName(newId: int, peer: Option<Peer>): (r: string)
    ensures peer.Some? && peer.value.username != "" ==> r == peer.value.username
    ensures peer.Some? && peer.value.username == "" && peer.value.firstName != "" ==> r == peer.value.firstName
    ensures (peer.None? || (peer.value.username == "" && peer.value.firstName == "")) ==> r == "User_" + IntToString(newId)
  {
    var fallback := "User_" + IntToString(newId);
    match peer
    case None => fallback
    case Some(p) => StrOr(p.username, StrOr(p.firstName, fallback))
  }

  /** The name stored for a group given by id: `chat.title or f"Guruh {gid}"`. */
  function GroupName(gid: int, peer: Option<Peer>): (r: string)
    ensures peer.Some? && peer.value.title != "" ==> r == peer.value.title
    ensures (peer.None? || peer.value.title == "") ==> r == "Guruh " + IntToString(gid)
  {
    var fallback := "Guruh " + IntToString(gid);
    match peer
    case None => fallback
    case Some(p) => StrOr(p.title, fallback)
  }

  /** The name stored for a group given by link. */
  const LinkGroupName := "Link orqali guruh"

  /** How a reply naming a group reads: a link, a numeric id, or neither. */
  datatype GroupInput = ByLink(link: string) | ById(id: int) | Malformed

  /** `text.startswith("http")` first, then `int(text)`, which raises on anything else. */
  function ClassifyGroupInput(text: string): (r: GroupInput)
    ensures StartsWith(text, "http") <==> r.ByLink?
    ensures r.ByLink? ==> r.link == text
    ensures !StartsWith(text, "http") ==> (r.ById? <==> ParseInt(text).Some?)
    ensures r.ById? ==> ParseInt(text) == Some(r.id)
  {
    if StartsWith(text, "http") then ByLink(text)
    else match ParseInt(text)
      case Some(g) => ById(g)
      case None => Malformed
  }

  /**
   * The `HH:MM:HH:MM` reply to the schedule prompt: exactly four
   * colon-separated parts, each left-padded with zeros to two characters,
   * giving the stop and the start clock. Nothing checks that the parts are
   * digits or in range.
   */
  function ParseScheduleInput(text: string): (r: Option<(string, string)>)
    ensures r.Some? <==> |Split(text, ':')| == 4
    ensures r.Some? ==> var p := Split(text, ':');
      r.value == (ZFill(p[0], 2) + ":" + ZFill(p[1], 2), ZFill(p[2], 2) + ":" + ZFill(p[3], 2))
  {
    var parts := Split(text, ':');
    if |parts| == 4 then
      Some((ZFill(parts[0], 2) + ":" + ZFill(parts[1], 2), ZFill(parts[2], 2) + ":" + ZFill(parts[3], 2)))
    else None
  }

  // ------------------------------------------------------------------ callback data

  /** `int(data.split('_')[1])`: the id a button carries after its prefix; `None` where that raises. */
  function CallbackArg(data: string): Option<int> {
    var parts := Split(data, '_');
    if |parts| < 2 then None else ParseInt(parts[1])
  }

  /** The callback data of a per-row button: `f'{prefix}_{id}'`. */
  function ButtonData(prefix: string, id: int): string {
    prefix + "_" + IntToString(id)
  }

  /** `str(n)` holds only digits and a minus sign. */
  lemma IntToStringChars(n: int)
    ensures forall i :: 0 <= i < |IntToString(n)| ==> IsDigit(IntToString(n)[i]) || IntToString(n)[i] == '-'
  {
    if n < 0 {
      var d := NatToString(-n);
      assert IntToString(n) == "-" + d;
      forall i | 0 <= i < |IntToString(n)| ensures IsDigit(IntToString(n)[i]) || IntToString(n)[i] == '-' {
        if i > 0 {
          assert IntToString(n)[i] == d[i - 1];
        }
      }
    }
  }

  /** The id a per-row button was built with is the id its press yields. */
  lemma ButtonRoundTrip(prefix: string, id: int)
    requires '_' !in prefix
    ensures CallbackArg(ButtonData(prefix, id)) == Some(id)
  {
    var s := IntToString(id);
    IntToStringChars(id);
    assert '_' !in s by {
      forall i | 0 <= i < |s| ensures s[i] != '_' {
      }
    }
    assert ButtonData(prefix, id) == prefix + ['_'] + s;
    SplitAtFirst(prefix, s, '_');
    SplitNoSep(s, '_');
  }

  /**
   * The buttons, one constructor per `callback_data` the handler tests
   * for, in its order; `Other` is data no branch takes.
   */
  datatype Button =
    | AddAdmin | ListAdmins | RemoveAdmin | RmAdm(admin: Option<int>) | EnterAdminRoom | Enter(admin: Option<int>)
    | UserbotSettings | UserbotDisableSchedule | CheckUserbot
    | AddKeyword | ViewKeywords | DeleteKeyword | DelKw(keyword: Option<int>)
    | AddPrivateGroup | ViewPrivateGroup | DeletePrivateGroup | DelPr(admin: Option<int>)
    | AddSearchGroup | ViewSearchGroups | DeleteSearchGroup | DelGrp(row: Option<int>)
    | BackToMain | Other

  /** The super-admin's buttons: a press by anyone else falls through every branch. */
  predicate SuperOnly(b: Button) {
    b.AddAdmin? || b.ListAdmins? || b.RemoveAdmin? || b.RmAdm? || b.EnterAdminRoom? || b.Enter?
    || b.UserbotSettings? || b.UserbotDisableSchedule? || b.CheckUserbot?
  }

  /**
   * The tests of `button_callback` on `query.data`, in their order. The
   * handler also tests the user on the super-admin's branches; their
   * strings are disjoint from every later branch's, so a press by anyone
   * else reaches no branch at all, which `CallbackEffect` states.
   */
  function ParseButton(data: string): Button {
    if data == "add_admin" then AddAdmin
    else if data == "list_admins" then ListAdmins
    else if data == "remove_admin" then RemoveAdmin
    else if StartsWith(data, "rmadm_") then RmAdm(CallbackArg(data))
    else if data == "enter_admin_room" then EnterAdminRoom
    else if StartsWith(data, "enter_") then Enter(CallbackArg(data))
    else if data == "userbot_settings" then UserbotSettings
    else if data == "userbot_disable_schedule" then UserbotDisableSchedule
    else if data == "check_userbot" then CheckUserbot
    else if data == "add_keyword" then AddKeyword
    else if data == "view_keywords" then ViewKeywords
    else if data == "delete_keyword" then DeleteKeyword
    else if StartsWith(data, "delkw_") then DelKw(CallbackArg(data))
    else if data == "add_private_group" then AddPrivateGroup
    else if data == "view_private_group" then ViewPrivateGroup
    else if data == "delete_private_group" then DeletePrivateGroup
    else if StartsWith(data, "delpr_") then DelPr(CallbackArg(data))
    else if data == "add_search_group" then AddSearchGroup
    else if data == "view_search_groups" then ViewSearchGroups
    else if data == "delete_search_group" then DeleteSearchGroup
    else if StartsWith(data, "delgrp_") then DelGrp(CallbackArg(data))
    else if data == "back_to_main" then BackToMain
    else Other
  }

  // ------------------------------------------------------------------ button presses

  /**
   * `button_callback`: what a press of `b` by `userId` does to the store and
   * to that user's state. `stamp` is the `strftime` of the clock at the
   * press. Menus and lists only read; a button whose id `int()` rejects
   * raises before changing anything.
   */
  function CallbackEffect(t: Tables, ud: UserData, userId: int, superAdminId: int, b: Button, stamp: string): Session {
    var popped := ud.(waiting := None);
    if SuperOnly(b) && userId != superAdminId then Session(t, ud)
    else match b
      case AddAdmin => Session(t, ud.(waiting := Some(AwaitAdminId)))
      case RmAdm(a) => if a.Some? then Session(t.WithoutAdmin(a.value), ud) else Session(t, ud)
      case Enter(a) => if a.Some? then Session(t, ud.(viewingAdmin := a)) else Session(t, ud)
      case UserbotSettings => Session(t, ud.(waiting := Some(AwaitUserbotTime)))
      case UserbotDisableSchedule => Session(t.WithSetting(ScheduleEnabledKey, "false"), popped)
      case CheckUserbot => Session(t.WithSetting(LastCheckKey, stamp), ud)
      case AddKeyword => Session(t, ud.(waiting := Some(AwaitKeyword)))
      case DelKw(k) => if k.Some? then Session(t.WithoutKeyword(k.value), ud) else Session(t, ud)
      case AddPrivateGroup => Session(t, ud.(waiting := Some(AwaitPrivateGroup)))
      case DelPr(a) => if a.Some? then Session(t.WithoutPrivateGroup(a.value), ud) else Session(t, ud)
      case AddSearchGroup => Session(t, ud.(waiting := Some(AwaitSearchGroup)))
      case DelGrp(row) => if row.Some? then Session(t.WithoutSearchGroup(row.value), ud) else Session(t, ud)
      case BackToMain => Session(t, if userId == superAdminId then Fresh else popped)
      case _ => Session(t, ud)
  }

  /** The delete buttons: each names a row to remove. */
  predicate Removes(b: Button) {
    b.RmAdm? || b.DelKw? || b.DelPr? || b.DelGrp?
  }

  /** What a delete button does to the store: the row it names goes; a button naming no row changes nothing. */
  function Removal(t: Tables, b: Button): Tables
    requires Removes(b)
  {
    match b
    case RmAdm(a) => if a.Some? then t.WithoutAdmin(a.value) else t
    case DelKw(k) => if k.Some? then t.WithoutKeyword(k.value) else t
    case DelPr(a) => if a.Some? then t.WithoutPrivateGroup(a.value) else t
    case DelGrp(row) => if row.Some? then t.WithoutSearchGroup(row.value) else t
  }

  /** A delete button that passes the super-admin check touches only its row, and not the presser's user data. */
  lemma RemovalEffect(t: Tables, ud: UserData, userId: int, superAdminId: int, b: Button, stamp: string)
    requires Removes(b) && !(SuperOnly(b) && userId != superAdminId)
    ensures CallbackEffect(t, ud, userId, superAdminId, b, stamp) == Session(Removal(t, b), ud)
  {
  }

  /**
   * Only the super-admin's presses touch the admins table, the settings or
   * the open admin room: for anyone else those stay as they were.
   */
  lemma OthersCannotManage(t: Tables, ud: UserData, userId: int, superAdminId: int, b: Button, stamp: string)
    requires userId != superAdminId
    ensures var r := CallbackEffect(t, ud, userId, superAdminId, b, stamp);
      r.tables.admins == t.admins && r.tables.settings == t.settings && r.user.viewingAdmin == ud.viewingAdmin
  {
  }

  /**
   * The delete buttons check nobody: a press of a keyword's, a private
   * group's or a search group's delete button removes that row whoever
   * presses it, admin or not.
   */
  lemma DeleteKeywordUnchecked(t: Tables, ud: UserData, userId: int, superAdminId: int, id: int, stamp: string)
    ensures CallbackEffect(t, ud, userId, superAdminId, DelKw(Some(id)), stamp) == Session(t.WithoutKeyword(id), ud)
  {
  }

  lemma DeletePrivateGroupUnchecked(t: Tables, ud: UserData, userId: int, superAdminId: int, id: int, stamp: string)
    ensures CallbackEffect(t, ud, userId, superAdminId, DelPr(Some(id)), stamp) == Session(t.WithoutPrivateGroup(id), ud)
  {
  }

  lemma DeleteSearchGroupUnchecked(t: Tables, ud: UserData, userId: int, superAdminId: int, id: int, stamp: string)
    ensures CallbackEffect(t, ud, userId, superAdminId, DelGrp(Some(id)), stamp) == Session(t.WithoutSearchGroup(id), ud)
  {
  }

  /** The prompt buttons only set what the user's next text message answers. */
  lemma PromptsOnlyWait(t: Tables, ud: UserData, userId: int, superAdminId: int, stamp: string)
    ensures CallbackEffect(t, ud, userId, superAdminId, AddKeyword, stamp) == Session(t, ud.(waiting := Some(AwaitKeyword)))
    ensures CallbackEffect(t, ud, userId, superAdminId, AddPrivateGroup, stamp) == Session(t, ud.(waiting := Some(AwaitPrivateGroup)))
    ensures CallbackEffect(t, ud, userId, superAdminId, AddSearchGroup, stamp) == Session(t, ud.(waiting := Some(AwaitSearchGroup)))
    ensures userId == superAdminId ==>
      CallbackEffect(t, ud, userId, superAdminId, AddAdmin, stamp) == Session(t, ud.(waiting := Some(AwaitAdminId)))
    ensures userId == superAdminId ==>
      CallbackEffect(t, ud, userId, superAdminId, UserbotSettings, stamp) == Session(t, ud.(waiting := Some(AwaitUserbotTime)))
  {
  }

  /** "Back" cancels the pending prompt; for the super-admin it also leaves the admin room. */
  lemma BackCancels(t: Tables, ud: UserData, userId: int, superAdminId: int, stamp: string)
    ensures var r := CallbackEffect(t, ud, userId, superAdminId, BackToMain, stamp);
      r.tables == t && r.user.waiting.None?
      && (userId == superAdminId ==> r.user.viewingAdmin.None?)
      && (userId != superAdminId ==> r.user.viewingAdmin == ud.viewingAdmin)
  {
  }

  /**
   * Switching the schedule off by button reaches the userbot: its next pass
   * reads the schedule as off, runs the session with no deadline and never
   * sleeps.
   */
  lemma DisableButtonStopsSchedule(t: Tables, ud: UserData, superAdminId: int, stamp: string,
                                   now: Instant, outcome: Outcome, afterRun: Instant)
    requires ValidInstant(now)
    ensures var r := CallbackEffect(t, ud, superAdminId, superAdminId, UserbotDisableSchedule, stamp);
      var pass := Tick(ReadSettings(r.tables.settings), now, outcome, afterRun);
      r.user.waiting.None? && Iteration(pass)[0] == RunForever && forall a :: a in Iteration(pass) ==> !a.Sleep?
  {
    var r := CallbackEffect(t, ud, superAdminId, superAdminId, UserbotDisableSchedule, stamp);
    assert r.tables.settings[ScheduleEnabledKey] == "false";
    DisabledRunsForever(Tick(ReadSettings(r.tables.settings), now, outcome, afterRun));
  }

  // ------------------------------------------------------------------ text replies

  /**
   * The reply to the schedule prompt: `off` in any letter case switches the
   * schedule off; four colon-separated parts store the padded stop and start
   * clocks and switch it on; anything else changes nothing.
   */
  function ScheduleEffect(t: Tables, text: string): Tables {
    if Lower(text) == "off" then t.WithSetting(ScheduleEnabledKey, "false")
    else match ParseScheduleInput(text)
      case Some((stop, start)) =>
        t.WithSetting(StopTimeKey, stop).WithSetting(StartTimeKey, start).WithSetting(ScheduleEnabledKey, "true")
      case None => t
  }

  /** The reply to the private group prompt: a link, or an id `int()` accepts; anything else stores nothing. */
  function PrivateGroupEffect(t: Tables, adminId: int, text: string, peer: Option<Peer>): Tables {
    match ClassifyGroupInput(text)
    case ByLink(link) => t.WithPrivateGroup(adminId, None, Some(link), Some(LinkGroupName))
    case ById(g) => t.WithPrivateGroup(adminId, Some(g), None, Some(GroupName(g, peer)))
    case Malformed => t
  }

  /** The reply to the search group prompt, read the same way; `add_search_group` may still refuse it. */
  function SearchGroupEffect(t: Tables, adminId: int, superAdminId: int, text: string, peer: Option<Peer>): Tables {
    match ClassifyGroupInput(text)
    case ByLink(link) => t.WithSearchGroup(adminId, superAdminId, None, Some(link), Some(LinkGroupName))
    case ById(g) => t.WithSearchGroup(adminId, superAdminId, Some(g), None, Some(GroupName(g, peer)))
    case Malformed => t
  }

  /** The reply to the admin id prompt: an id `int()` accepts is added as an admin under the name `get_chat` yields. */
  function AdminIdEffect(t: Tables, text: string, peer: Option<Peer>): Tables {
    match ParseInt(text)
    case Some(newId) => t.WithAdmin(newId, AdminName(newId, peer))
    case None => t
  }

  /** The super-admin's prompts: only the super-admin's reply answers them. */
  predicate SuperPrompt(w: Waiting) {
    w == AwaitAdminId || w == AwaitUserbotTime
  }

  /**
   * The prompt a non-empty private text from `userId` answers, following the
   * tests of `handle_text` in order: the admin id prompt for the super-admin
   * first, then the admin gate, then the other prompts; `None` when the text
   * is ignored.
   */
  function Answered(t: Tables, ud: UserData, userId: int, superAdminId: int): (r: Option<Waiting>)
    ensures r.Some? <==> ud.waiting.Some? && t.IsAdmin(userId, superAdminId) && (SuperPrompt(ud.waiting.value) ==> userId == superAdminId)
    ensures r.Some? ==> r == ud.waiting
  {
    match ud.waiting
    case None => None
    case Some(w) =>
      if w == AwaitAdminId && userId == superAdminId then ud.waiting
      else if !t.IsAdmin(userId, superAdminId) then None
      else match w
        case AwaitUserbotTime => if userId == superAdminId then ud.waiting else None
        case AwaitKeyword => ud.waiting
        case AwaitPrivateGroup => ud.waiting
        case AwaitSearchGroup => ud.waiting
        case AwaitAdminId => None
  }

  /** What answering prompt `w` with `text` does to the store; `adminId` is the admin whose rows a reply edits. */
  function AnswerEffect(t: Tables, w: Waiting, adminId: int, superAdminId: int, text: string, peer: Option<Peer>): Tables {
    match w
    case AwaitAdminId => AdminIdEffect(t, text, peer)
    case AwaitUserbotTime => ScheduleEffect(t, text)
    case AwaitKeyword => t.WithKeyword(adminId, text)
    case AwaitPrivateGroup => PrivateGroupEffect(t, adminId, text, peer)
    case AwaitSearchGroup => SearchGroupEffect(t, adminId, superAdminId, text, peer)
  }

  /**
   * `handle_text`: what a private text message `raw` from `userId` does. An
   * empty message and an ignored one change nothing; a reply to a prompt is
   * stripped, applied, and consumes the prompt. `peer` is what `get_chat`
   * returns for the id the message names.
   */
  function TextEffect(t: Tables, ud: UserData, userId: int, superAdminId: int, raw: string, peer: Option<Peer>): Session {
    if raw == "" then Session(t, ud)
    else match Answered(t, ud, userId, superAdminId)
      case None => Session(t, ud)
      case Some(w) => Session(AnswerEffect(t, w, Acting(ud, userId), superAdminId, Strip(raw), peer), ud.(waiting := None))
  }

  /**
   * A non-empty text from an admin, with a prompt pending that the admin may
   * answer, applies the prompt's effect to the stripped text and consumes it.
   */
  lemma TextAnswers(t: Tables, ud: UserData, userId: int, superAdminId: int, raw: string, peer: Option<Peer>)
    requires raw != "" && ud.waiting.Some? && t.IsAdmin(userId, superAdminId)
    requires SuperPrompt(ud.waiting.value) ==> userId == superAdminId
    ensures TextEffect(t, ud, userId, superAdminId, raw, peer)
         == Session(AnswerEffect(t, ud.waiting.value, Acting(ud, userId), superAdminId, Strip(raw), peer), ud.(waiting := None))
  {
    assert Answered(t, ud, userId, superAdminId) == ud.waiting;
  }

  /** A text that answers no prompt changes nothing. */
  lemma TextIgnored(t: Tables, ud: UserData, userId: int, superAdminId: int, raw: string, peer: Option<Peer>)
    requires raw == "" || Answered(t, ud, userId, superAdminId) == None
    ensures TextEffect(t, ud, userId, superAdminId, raw, peer) == Session(t, ud)
  {
  }

  /** Someone who is neither the super-admin nor in the admins table changes nothing by writing to the bot. */
  lemma NonAdminTextIgnored(t: Tables, ud: UserData, userId: int, superAdminId: int, raw: string, peer: Option<Peer>)
    requires !t.IsAdmin(userId, superAdminId)
    ensures TextEffect(t, ud, userId, superAdminId, raw, peer) == Session(t, ud)
  {
  }

  /**
   * A prompt the user may answer is consumed by the answer, whatever it
   * holds, and the admin room stays open; with no prompt pending, or a
   * super-admin prompt pending for someone else, a text changes nothing.
   */
  lemma PromptConsumed(t: Tables, ud: UserData, userId: int, superAdminId: int, raw: string, peer: Option<Peer>)
    requires raw != ""
    ensures var r := TextEffect(t, ud, userId, superAdminId, raw, peer);
      && (t.IsAdmin(userId, superAdminId) && ud.waiting.Some? && (SuperPrompt(ud.waiting.value) ==> userId == superAdminId)
          ==> r.user == ud.(waiting := None))
      && (ud.waiting.None? || (SuperPrompt(ud.waiting.value) && userId != superAdminId) ==> r == Session(t, ud))
  {
  }

  /** The super-admin's reply to the admin id prompt goes, stripped, to `AdminIdEffect`, and consumes the prompt. */
  lemma AdminIdReplyHandled(t: Tables, ud: UserData, superAdminId: int, raw: string, peer: Option<Peer>)
    requires raw != "" && ud.waiting == Some(AwaitAdminId)
    ensures TextEffect(t, ud, superAdminId, superAdminId, raw, peer) == Session(AdminIdEffect(t, Strip(raw), peer), ud.(waiting := None))
  {
    assert Answered(t, ud, superAdminId, superAdminId) == Some(AwaitAdminId);
  }

  /**
   * The reply to the admin id prompt: an id `int()` accepts gets an admins
   * row, under the name `get_chat` yields unless it already had one; any
   * other reply adds nobody.
   */
  lemma AdminIdReply(t: Tables, text: string, peer: Option<Peer>)
    ensures ParseInt(text).None? ==> AdminIdEffect(t, text, peer) == t
    ensures ParseInt(text).Some? ==>
      var n := ParseInt(text).value;
      AdminIdEffect(t, text, peer) == t.WithAdmin(n, AdminName(n, peer)) && HasKey(AdminIdEffect(t, text, peer).admins, AdminUserId, n)
  {
    if ParseInt(text).Some? {
      var n := ParseInt(text).value;
      var u := t.WithAdmin(n, AdminName(n, peer));
      if !HasKey(t.admins, AdminUserId, n) {
        assert AdminRow(n, AdminName(n, peer)) in u.admins;
      }
    }
  }

  /** `off`, in any letter case, switches the schedule off and touches no other setting. */
  lemma OffReply(t: Tables, text: string)
    requires Lower(text) == "off"
    ensures ScheduleEffect(t, text).settings == t.settings[ScheduleEnabledKey := "false"]
    ensures !ReadSettings(ScheduleEffect(t, text).settings).scheduleOn
  {
  }

  /** A reply that is neither `off` nor four colon-separated parts changes no setting. */
  lemma MalformedScheduleReply(t: Tables, text: string)
    requires Lower(text) != "off" && |Split(text, ':')| != 4
    ensures ScheduleEffect(t, text) == t
  {
  }

  /**
   * A reply of exactly four colon-separated parts, whatever they hold,
   * stores the zero-padded parts as the two clocks and switches the schedule
   * on; no other setting changes. Nothing checks digits or range.
   */
  lemma ScheduleReplyStored(t: Tables, text: string, p0: string, p1: string, p2: string, p3: string)
    requires Lower(text) != "off" && Split(text, ':') == [p0, p1, p2, p3]
    ensures ScheduleEffect(t, text) == t.(settings := t.settings[StopTimeKey := ZFill(p0, 2) + ":" + ZFill(p1, 2)]
                                                          [StartTimeKey := ZFill(p2, 2) + ":" + ZFill(p3, 2)]
                                                          [ScheduleEnabledKey := "true"])
  {
  }

  /** Only a three-character reply can read as `off`. */
  lemma NotOff(text: string)
    requires |text| != 3
    ensures Lower(text) != "off"
  {
    assert |Lower(text)| != |"off"|;
  }

  /** A digit string holds no colon. */
  lemma DigitsHaveNoColon(s: string)
    requires AllDigits(s)
    ensures ':' !in s
  {
    forall i | 0 <= i < |s| ensures s[i] != ':' {
      assert IsDigit(s[i]);
    }
  }

  /** Four digit groups joined by colons split back into those groups. */
  lemma SplitClocks(a: string, b: string, c: string, d: string)
    requires AllDigits(a) && AllDigits(b) && AllDigits(c) && AllDigits(d)
    ensures Split(a + ":" + b + ":" + c + ":" + d, ':') == [a, b, c, d]
  {
    DigitsHaveNoColon(a);
    DigitsHaveNoColon(b);
    DigitsHaveNoColon(c);
    DigitsHaveNoColon(d);
    assert a + ":" + b + ":" + c + ":" + d == a + [':'] + (b + [':'] + (c + [':'] + d));
    SplitAtFirst(a, b + [':'] + (c + [':'] + d), ':');
    SplitAtFirst(b, c + [':'] + d, ':');
    SplitAtFirst(c, d, ':');
    SplitNoSep(d, ':');
  }

  /** The userbot's next pass reads back the two clocks and the switch the schedule reply stores. */
  lemma ReadStoredSchedule(settings: map<string, string>, stop: string, start: string)
    ensures ReadSettings(settings[StopTimeKey := stop][StartTimeKey := start][ScheduleEnabledKey := "true"])
         == Readings(true, ParseClock(stop), ParseClock(start))
  {
    var s := settings[StopTimeKey := stop][StartTimeKey := start][ScheduleEnabledKey := "true"];
    assert s[StopTimeKey] == stop && s[StartTimeKey] == start && s[ScheduleEnabledKey] == "true";
  }

  /** Two zero-padded digit groups around a colon parse as the groups' values. */
  lemma PaddedClockParses(h: string, m: string)
    requires h != [] && m != [] && AllDigits(h) && AllDigits(m)
    ensures ParseClock(ZFill(h, 2) + ":" + ZFill(m, 2)) == Some((DigitsValue(h), DigitsValue(m)))
  {
    ZFillDigits(h, 2);
    ZFillDigits(m, 2);
    ParseClockDigits(ZFill(h, 2), ZFill(m, 2));
  }

  /** A text that splits into four parts is the parts and three separators. */
  lemma FourPartsLength(text: string, a: string, b: string, c: string, d: string)
    requires Split(text, ':') == [a, b, c, d]
    ensures |text| == |a| + |b| + |c| + |d| + 3
  {
    assert text == Join([a, b, c, d], ':');
    JoinFour(a, b, c, d, ':');
  }

  /**
   * The schedule reply in its intended form, four groups of digits: the
   * userbot's next pass reads the schedule as on, with the first two groups'
   * values as the stop clock and the last two as the start clock.
   */
  lemma ScheduleReplyRead(t: Tables, text: string, a: string, b: string, c: string, d: string)
    requires Split(text, ':') == [a, b, c, d]
    requires a != [] && b != [] && c != [] && d != []
    requires AllDigits(a) && AllDigits(b) && AllDigits(c) && AllDigits(d)
    ensures ReadSettings(ScheduleEffect(t, text).settings)
         == Readings(true, Some((DigitsValue(a), DigitsValue(b))), Some((DigitsValue(c), DigitsValue(d))))
  {
    FourPartsLength(text, a, b, c, d);
    NotOff(text);
    ScheduleReplyStored(t, text, a, b, c, d);
    ReadStoredSchedule(t.settings, ZFill(a, 2) + ":" + ZFill(b, 2), ZFill(c, 2) + ":" + ZFill(d, 2));
    PaddedClockParses(a, b);
    PaddedClockParses(c, d);
  }

  /** The super-admin's reply to the schedule prompt goes, stripped, to the schedule parser, and consumes the prompt. */
  lemma TimeReplyHandled(t: Tables, ud: UserData, superAdminId: int, raw: string, peer: Option<Peer>)
    requires raw != "" && ud.waiting == Some(AwaitUserbotTime)
    ensures TextEffect(t, ud, superAdminId, superAdminId, raw, peer) == Session(ScheduleEffect(t, Strip(raw)), ud.(waiting := None))
  {
    assert Answered(t, ud, superAdminId, superAdminId) == Some(AwaitUserbotTime);
  }

  /**
   * The super-admin's schedule reply that splits into four digit groups
   * consumes the prompt, and the userbot's next pass reads the schedule as
   * on, with the groups' values as the stop and the start clock.
   */
  lemma ScheduleReplyReachesUserbot(t: Tables, ud: UserData, superAdminId: int, raw: string, a: string, b: string, c: string, d: string,
                                    peer: Option<Peer>)
    requires ud.waiting == Some(AwaitUserbotTime)
    requires Split(Strip(raw), ':') == [a, b, c, d]
    requires a != [] && b != [] && c != [] && d != []
    requires AllDigits(a) && AllDigits(b) && AllDigits(c) && AllDigits(d)
    ensures var r := TextEffect(t, ud, superAdminId, superAdminId, raw, peer);
      && r.user == ud.(waiting := None)
      && ReadSettings(r.tables.settings) == Readings(true, Some((DigitsValue(a), DigitsValue(b))), Some((DigitsValue(c), DigitsValue(d))))
  {
    FourPartsLength(Strip(raw), a, b, c, d);
    TimeReplyHandled(t, ud, superAdminId, raw, peer);
    ScheduleReplyRead(t, Strip(raw), a, b, c, d);
  }

  /**
   * End to end, for a schedule the super-admin sends as four digit groups:
   * the userbot's next pass backs off when the stop clock is out of range;
   * with both clocks in range, a session that returns or times out is run
   * until the stop clock and followed by the sleep until the start clock.
   */
  lemma ScheduleReplyDrivesUserbot(t: Tables, ud: UserData, superAdminId: int, raw: string, a: string, b: string, c: string, d: string,
                                   peer: Option<Peer>, now: Instant, outcome: Outcome, afterRun: Instant)
    requires ud.waiting == Some(AwaitUserbotTime)
    requires Split(Strip(raw), ':') == [a, b, c, d]
    requires a != [] && b != [] && c != [] && d != []
    requires AllDigits(a) && AllDigits(b) && AllDigits(c) && AllDigits(d)
    requires ValidInstant(now)
    ensures var pass := Tick(ReadSettings(TextEffect(t, ud, superAdminId, superAdminId, raw, peer).tables.settings), now, outcome, afterRun);
      var stop := (DigitsValue(a), DigitsValue(b));
      var start := (DigitsValue(c), DigitsValue(d));
      && (!ValidClock(stop.0, stop.1) ==> Iteration(pass) == [Backoff(BackoffSeconds)])
      && (ValidClock(stop.0, stop.1) && ValidClock(start.0, start.1) && outcome == Finished ==>
            Iteration(pass) == [RunUntil(SecondsUntilStop(now, ClockSeconds(stop.0, stop.1))),
                                Sleep(SleepSeconds(now, afterRun, ClockSeconds(start.0, start.1)))])
  {
    ScheduleReplyReachesUserbot(t, ud, superAdminId, raw, a, b, c, d, peer);
    var pass := Tick(Readings(true, Some((DigitsValue(a), DigitsValue(b))), Some((DigitsValue(c), DigitsValue(d)))),
                     now, outcome, afterRun);
    if !ValidClock(DigitsValue(a), DigitsValue(b)) {
      MalformedClockBacksOff(pass);
    } else if ValidClock(DigitsValue(c), DigitsValue(d)) && outcome == Finished {
      FinishedRunSleeps(pass, (DigitsValue(a), DigitsValue(b)), (DigitsValue(c), DigitsValue(d)));
    }
  }

  /** An admin's reply to the keyword prompt is stored, stripped, as a keyword of the acting admin. */
  lemma KeywordReplyHandled(t: Tables, ud: UserData, userId: int, superAdminId: int, raw: string, peer: Option<Peer>)
    requires raw != "" && t.IsAdmin(userId, superAdminId) && ud.waiting == Some(AwaitKeyword)
    ensures TextEffect(t, ud, userId, superAdminId, raw, peer)
         == Session(t.WithKeyword(Acting(ud, userId), Strip(raw)), ud.(waiting := None))
  {
    TextAnswers(t, ud, userId, superAdminId, raw, peer);
    assert AnswerEffect(t, AwaitKeyword, Acting(ud, userId), superAdminId, Strip(raw), peer)
        == t.WithKeyword(Acting(ud, userId), Strip(raw));
  }

  /** An admin's reply to the private group prompt goes, stripped, to `PrivateGroupEffect` for the acting admin. */
  lemma PrivateGroupReplyHandled(t: Tables, ud: UserData, userId: int, superAdminId: int, raw: string, peer: Option<Peer>)
    requires raw != "" && t.IsAdmin(userId, superAdminId) && ud.waiting == Some(AwaitPrivateGroup)
    ensures TextEffect(t, ud, userId, superAdminId, raw, peer)
         == Session(PrivateGroupEffect(t, Acting(ud, userId), Strip(raw), peer), ud.(waiting := None))
  {
    assert Answered(t, ud, userId, superAdminId) == Some(AwaitPrivateGroup);
  }

  /** An admin's reply to the search group prompt goes, stripped, to `SearchGroupEffect` for the acting admin. */
  lemma SearchGroupReplyHandled(t: Tables, ud: UserData, userId: int, superAdminId: int, raw: string, peer: Option<Peer>)
    requires raw != "" && t.IsAdmin(userId, superAdminId) && ud.waiting == Some(AwaitSearchGroup)
    ensures TextEffect(t, ud, userId, superAdminId, raw, peer)
         == Session(SearchGroupEffect(t, Acting(ud, userId), superAdminId, Strip(raw), peer), ud.(waiting := None))
  {
    assert Answered(t, ud, userId, superAdminId) == Some(AwaitSearchGroup);
  }

  /**
   * A keyword added for an admin is found: a later message in a group the
   * admin watches that contains the keyword, in any letter case, yields a
   * match for it carrying the admin's private group id.
   */
  lemma AddedKeywordMatches(t: Tables, adminId: int, keyword: string, g: int, message: string)
    requires Registered(t.searchGroups, adminId, g) && Contains(Lower(keyword), Lower(message))
    ensures var u := t.WithKeyword(adminId, keyword);
      Match(keyword, adminId, PrivateGroupIdOf(t.privateGroups, adminId))
        in MatchingRows(JoinRows(u.keywords, u.searchGroups, u.privateGroups, g), Lower(message))
  {
    var u := t.WithKeyword(adminId, keyword);
    var k := KeywordRow(t.nextKeywordId, adminId, keyword);
    assert k in u.keywords;
    MatchMembers(u.keywords, u.searchGroups, u.privateGroups, g, message);
    assert JoinedRow(k, u.privateGroups) == Match(keyword, adminId, PrivateGroupIdOf(t.privateGroups, adminId));
  }

  /**
   * The private group reply: a link becomes the admin's single private group
   * row, named "Link orqali guruh"; an id `int()` accepts becomes it, named
   * by the chat's title; anything else changes nothing.
   */
  lemma PrivateGroupReply(t: Tables, adminId: int, text: string, peer: Option<Peer>)
    ensures var r := PrivateGroupEffect(t, adminId, text, peer);
      && (StartsWith(text, "http") ==>
            Only(r.privateGroups, PrivateGroupAdmin, adminId) == [PrivateGroupRow(adminId, None, Some(text), Some(LinkGroupName))])
      && (!StartsWith(text, "http") && ParseInt(text).Some? ==>
            var g := ParseInt(text).value;
            Only(r.privateGroups, PrivateGroupAdmin, adminId) == [PrivateGroupRow(adminId, Some(g), None, Some(GroupName(g, peer)))])
      && (!StartsWith(text, "http") && ParseInt(text).None? ==> r == t)
      && r.admins == t.admins && r.keywords == t.keywords && r.searchGroups == t.searchGroups && r.settings == t.settings
  {
    match ClassifyGroupInput(text)
    case ByLink(link) => PrivateGroupUpsert(t, adminId, None, Some(link), Some(LinkGroupName), adminId + 1);
    case ById(g) => PrivateGroupUpsert(t, adminId, Some(g), None, Some(GroupName(g, peer)), adminId + 1);
    case Malformed =>
  }

  /**
   * The search group reply: a link is never refused as a duplicate, so it
   * adds one row unless the admin is at the cap; an id `int()` accepts goes
   * through `add_search_group`'s checks; anything else changes nothing.
   */
  lemma SearchGroupReply(t: Tables, adminId: int, superAdminId: int, text: string, peer: Option<Peer>)
    ensures var r := SearchGroupEffect(t, adminId, superAdminId, text, peer);
      && (StartsWith(text, "http") && (adminId == superAdminId || Count(t.searchGroups, SearchGroupAdmin, adminId) < SearchGroupCap) ==>
            Only(r.searchGroups, SearchGroupAdmin, adminId)
              == Only(t.searchGroups, SearchGroupAdmin, adminId)
                 + [SearchGroupRow(t.nextSearchGroupId, adminId, None, Some(text), Some(LinkGroupName))])
      && (!StartsWith(text, "http") && ParseInt(text).Some? ==>
            var g := ParseInt(text).value;
            r == t.WithSearchGroup(adminId, superAdminId, Some(g), None, Some(GroupName(g, peer))))
      && (!StartsWith(text, "http") && ParseInt(text).None? ==> r == t)
  {
    if StartsWith(text, "http") {
      AdmissionExemptions(t, adminId, superAdminId, None);
      AddSearchGroupEffect(t, adminId, superAdminId, None, Some(text), Some(LinkGroupName));
    }
  }

  // ------------------------------------------------------------------ start-up seeding

  /** One seeding step of `main`: the default is written when `get_setting(key)` is falsy, that is absent or empty. */
  function SeedKey(settings: map<string, string>, key: string, default: string): map<string, string> {
    if key !in settings || settings[key] == "" then settings[key := default] else settings
  }

  /** The settings after `main`'s three seeding steps, stop clock first. */
  function Seeded(settings: map<string, string>): map<string, string> {
    SeedKey(SeedKey(SeedKey(settings, StopTimeKey, DefaultStopTime), StartTimeKey, DefaultStartTime),
            ScheduleEnabledKey, DefaultScheduleEnabled)
  }

  /**
   * Seeding fills exactly the three schedule settings that are absent or
   * empty with their defaults, keeps every non-empty value, and touches no
   * other key.
   */
  lemma SeededValues(settings: map<string, string>)
    ensures var r := Seeded(settings);
      && (StopTimeKey !in settings || settings[StopTimeKey] == "" ==> r[StopTimeKey] == DefaultStopTime)
      && (StopTimeKey in settings && settings[StopTimeKey] != "" ==> r[StopTimeKey] == settings[StopTimeKey])
      && (StartTimeKey !in settings || settings[StartTimeKey] == "" ==> r[StartTimeKey] == DefaultStartTime)
      && (StartTimeKey in settings && settings[StartTimeKey] != "" ==> r[StartTimeKey] == settings[StartTimeKey])
      && (ScheduleEnabledKey !in settings || settings[ScheduleEnabledKey] == "" ==> r[ScheduleEnabledKey] == DefaultScheduleEnabled)
      && (ScheduleEnabledKey in settings && settings[ScheduleEnabledKey] != "" ==> r[ScheduleEnabledKey] == settings[ScheduleEnabledKey])
      && forall k :: k != StopTimeKey && k != StartTimeKey && k != ScheduleEnabledKey ==>
           (k in r <==> k in settings) && (k in settings ==> r[k] == settings[k])
  {
  }

  /** Seeding twice is seeding once: a restart changes no setting. */
  lemma SeedingIdempotent(settings: map<string, string>)
    ensures Seeded(Seeded(settings)) == Seeded(settings)
  {
    SeededValues(settings);
    SeededValues(Seeded(settings));
    assert Seeded(Seeded(settings)).Keys == Seeded(settings).Keys;
  }

  /**
   * Seeding changes nothing the userbot reads, unless a schedule setting is
   * stored empty: the userbot already falls back to the same defaults for a
   * missing key.
   */
  lemma SeedingKeepsReadings(settings: map<string, string>)
    requires StopTimeKey in settings ==> settings[StopTimeKey] != ""
    requires StartTimeKey in settings ==> settings[StartTimeKey] != ""
    requires ScheduleEnabledKey in settings ==> settings[ScheduleEnabledKey] != ""
    ensures ReadSettings(Seeded(settings)) == ReadSettings(settings)
  {
    SeededValues(settings);
  }

  /** `main`'s seeding, against the store: each setting read, and written only when falsy. */
  method SeedDefaults(store: Store)
    requires store.Valid()
    modifies store
    ensures store.Valid()
    ensures store.Snapshot() == old(store.Snapshot()).(settings := Seeded(old(store.settings)))
  {
    var stop := store.GetSetting(StopTimeKey, None);
    if stop.None? || stop.value == "" {
      store.SetSetting(StopTimeKey, DefaultStopTime);
    }
    var start := store.GetSetting(StartTimeKey, None);
    if start.None? || start.value == "" {
      store.SetSetting(StartTimeKey, DefaultStartTime);
    }
    var enabled := store.GetSetting(ScheduleEnabledKey, None);
    if enabled.None? || enabled.value == "" {
      store.SetSetting(ScheduleEnabledKey, DefaultScheduleEnabled);
    }
  }

  // ------------------------------------------------------------------ the bot

  /** The chat types Telegram reports; only groups and supergroups are scanned. */
  datatype ChatKind = PrivateChat | GroupChat | Supergroup | Channel

  /**
   * A text message as `check_group_message` sees it: its text (empty for
   * none), the chat's type, id and title, and the sender's id, username and
   * first name (empty for none).
   */
  datatype GroupMessage = GroupMessage(text: string, kind: ChatKind, chatId: int, title: string,
                                       fromId: int, fromUsername: string, fromFirstName: string)

  /** The bot's handlers over the store, with `context.user_data` for each user. */
  class Bot {
    const store: Store
    const superAdminId: int
    var userData: map<int, UserData>

    /** A user's `context.user_data`; a user the bot has not seen has an empty one. */
    function UserDataOf(userId: int): UserData
      reads this
    {
      if userId in userData then userData[userId] else Fresh
    }

    ghost predicate Valid()
      reads this, store
    {
      store.Valid()
    }

    constructor (store: Store, superAdminId: int)
      requires store.Valid()
      ensures Valid() && this.store == store && this.superAdminId == superAdminId
      ensures forall u :: UserDataOf(u) == Fresh
    {
      this.store := store;
      this.superAdminId := superAdminId;
      userData := map[];
    }

    /** The admin id branch of `handle_text`: `int()` on the reply, then `add_admin` under the name `get_chat` gives. */
    method AnswerAdminId(text: string, peer: Option<Peer>)
      requires Valid()
      modifies store
      ensures Valid()
      ensures store.Snapshot() == AdminIdEffect(old(store.Snapshot()), text, peer)
    {
      var parsed := ParseInt(text);
      if parsed.Some? {
        var newId := parsed.value;
        var added := store.AddAdmin(newId, AdminName(newId, peer));
      }
    }

    /** The schedule branch of `handle_text`: `off`, or the four-part `split(':')` with `zfill(2)`, then the settings writes. */
    method AnswerSchedule(text: string)
      requires Valid()
      modifies store
      ensures Valid()
      ensures store.Snapshot() == ScheduleEffect(old(store.Snapshot()), text)
    {
      if Lower(text) == "off" {
        store.SetSetting(ScheduleEnabledKey, "false");
      } else {
        var times := Split(text, ':');
        if |times| == 4 {
          var stopTime := ZFill(times[0], 2) + ":" + ZFill(times[1], 2);
          var startTime := ZFill(times[2], 2) + ":" + ZFill(times[3], 2);
          store.SetSetting(StopTimeKey, stopTime);
          store.SetSetting(StartTimeKey, startTime);
          store.SetSetting(ScheduleEnabledKey, "true");
        }
      }
    }

    /** The private group branch of `handle_text`: a link, or an id named by the chat's title. */
    method AnswerPrivateGroup(adminId: int, text: string, peer: Option<Peer>)
      requires Valid()
      modifies store
      ensures Valid()
      ensures store.Snapshot() == PrivateGroupEffect(old(store.Snapshot()), adminId, text, peer)
    {
      if StartsWith(text, "http") {
        store.AddPrivateGroup(adminId, None, Some(text), Some(LinkGroupName));
      } else {
        var gid := ParseInt(text);
        if gid.Some? {
          store.AddPrivateGroup(adminId, gid, None, Some(GroupName(gid.value, peer)));
        }
      }
    }

    /** The search group branch of `handle_text`: the same reading, then `add_search_group` and its verdict. */
    method AnswerSearchGroup(adminId: int, text: string, peer: Option<Peer>) returns (status: Option<AddStatus>)
      requires Valid()
      modifies store
      ensures Valid()
      ensures store.Snapshot() == SearchGroupEffect(old(store.Snapshot()), adminId, superAdminId, text, peer)
      ensures status.Some? <==> ClassifyGroupInput(text) != Malformed
      ensures status.Some? ==> (status.value == Added <==> store.Snapshot() != old(store.Snapshot()))
    {
      status := None;
      var ok: bool, st: AddStatus;
      if StartsWith(text, "http") {
        ok, st := store.AddSearchGroup(adminId, superAdminId, None, Some(text), Some(LinkGroupName));
        status := Some(st);
      } else {
        var gid := ParseInt(text);
        if gid.Some? {
          ok, st := store.AddSearchGroup(adminId, superAdminId, gid, None, Some(GroupName(gid.value, peer)));
          status := Some(st);
        }
      }
    }

    /** The reply `text` to prompt `w`: the branch of `handle_text` that handles `w`. */
    method Answer(w: Waiting, adminId: int, text: string, peer: Option<Peer>)
      requires Valid()
      modifies store
      ensures Valid()
      ensures store.Snapshot() == AnswerEffect(old(store.Snapshot()), w, adminId, superAdminId, text, peer)
    {
      match w
      case AwaitAdminId =>
        AnswerAdminId(text, peer);
      case AwaitUserbotTime =>
        AnswerSchedule(text);
      case AwaitKeyword =>
        store.AddKeyword(adminId, text);
      case AwaitPrivateGroup =>
        AnswerPrivateGroup(adminId, text, peer);
      case AwaitSearchGroup =>
        var status := AnswerSearchGroup(adminId, text, peer);
    }

    /**
     * `handle_text`: an empty message is ignored; the super-admin's reply to
     * the admin id prompt is answered before the admin gate; past the gate,
     * an admin's reply answers the prompt pending for them (the schedule
     * prompt only for the super-admin); the stripped text is the answer and
     * the prompt is consumed. Only the sender's user data changes.
     */
    method HandleText(userId: int, raw: string, peer: Option<Peer>)
      requires Valid()
      modifies this, store
      ensures Valid()
      ensures Session(store.Snapshot(), UserDataOf(userId))
           == TextEffect(old(store.Snapshot()), old(UserDataOf(userId)), userId, superAdminId, raw, peer)
      ensures forall u :: u != userId ==> UserDataOf(u) == old(UserDataOf(u))
    {
      ghost var t0 := store.Snapshot();
      var ud := UserDataOf(userId);
      if raw == "" {
        TextIgnored(t0, ud, userId, superAdminId, raw, peer);
        return;
      }
      if ud.waiting == Some(AwaitAdminId) && userId == superAdminId {
        AnswerPending(userId, raw, peer);
        return;
      }
      if !store.IsAdmin(userId, superAdminId) {
        TextIgnored(t0, ud, userId, superAdminId, raw, peer);
        return;
      }
      AnswerPending(userId, raw, peer);
    }

    /**
     * `handle_text` past the admin gate: the prompt pending for the admin is
     * answered with the stripped text and consumed, unless it is one of the
     * super-admin's and the admin is someone else.
     */
    method AnswerPending(userId: int, raw: string, peer: Option<Peer>)
      requires Valid() && raw != "" && store.IsAdmin(userId, superAdminId)
      modifies this, store
      ensures Valid()
      ensures Session(store.Snapshot(), UserDataOf(userId))
           == TextEffect(old(store.Snapshot()), old(UserDataOf(userId)), userId, superAdminId, raw, peer)
      ensures forall u :: u != userId ==> UserDataOf(u) == old(UserDataOf(u))
    {
      ghost var t0 := store.Snapshot();
      var ud := UserDataOf(userId);
      if ud.waiting.Some? && (SuperPrompt(ud.waiting.value) ==> userId == superAdminId) {
        var text := Strip(raw);
        TextAnswers(t0, ud, userId, superAdminId, raw, peer);
        Answer(ud.waiting.value, Acting(ud, userId), text, peer);
        userData := userData[userId := ud.(waiting := None)];
      } else {
        TextIgnored(t0, ud, userId, superAdminId, raw, peer);
      }
    }

    /**
     * `button_callback`: the press's effect on the store and on the
     * presser's user data, as `CallbackEffect` states it for the button the
     * callback data names. Only the presser's user data changes.
     */
    method ButtonCallback(userId: int, data: string, stamp: string)
      requires Valid()
      modifies this, store
      ensures Valid()
      ensures Session(store.Snapshot(), UserDataOf(userId))
           == CallbackEffect(old(store.Snapshot()), old(UserDataOf(userId)), userId, superAdminId, ParseButton(data), stamp)
      ensures forall u :: u != userId ==> UserDataOf(u) == old(UserDataOf(u))
    {
      var b := ParseButton(data);
      Press(userId, b, stamp);
    }

    /** The branch of `button_callback` for the button `b` the callback data names. */
    method Press(userId: int, b: Button, stamp: string)
      requires Valid()
      modifies this, store
      ensures Valid()
      ensures Session(store.Snapshot(), UserDataOf(userId))
           == CallbackEffect(old(store.Snapshot()), old(UserDataOf(userId)), userId, superAdminId, b, stamp)
      ensures forall u :: u != userId ==> UserDataOf(u) == old(UserDataOf(u))
    {
      if SuperOnly(b) && userId != superAdminId {
        return;
      }
      if Removes(b) {
        RemovalEffect(store.Snapshot(), UserDataOf(userId), userId, superAdminId, b, stamp);
        PressRemove(b);
      } else if b == UserbotDisableSchedule || b == CheckUserbot {
        PressSetting(userId, b, stamp);
      } else {
        PressMenu(userId, b);
      }
    }

    /** The delete buttons: each removes the row it names, and nothing else changes. */
    method PressRemove(b: Button)
      requires Valid() && Removes(b)
      modifies store
      ensures Valid()
      ensures store.Snapshot() == Removal(old(store.Snapshot()), b)
    {
      match b
      case RmAdm(a) =>
        if a.Some? {
          store.RemoveAdmin(a.value);
        }
      case DelKw(k) =>
        if k.Some? {
          store.RemoveKeyword(k.value);
        }
      case DelPr(a) =>
        if a.Some? {
          store.RemovePrivateGroup(a.value);
        }
      case DelGrp(row) =>
        if row.Some? {
          store.RemoveSearchGroup(row.value);
        }
    }

    /** The schedule switch and the status check: one settings write each. */
    method PressSetting(userId: int, b: Button, stamp: string)
      requires Valid() && (b == UserbotDisableSchedule || b == CheckUserbot) && userId == superAdminId
      modifies this, store
      ensures Valid()
      ensures Session(store.Snapshot(), UserDataOf(userId))
           == CallbackEffect(old(store.Snapshot()), old(UserDataOf(userId)), userId, superAdminId, b, stamp)
      ensures forall u :: u != userId ==> UserDataOf(u) == old(UserDataOf(u))
    {
      var ud := UserDataOf(userId);
      if b == UserbotDisableSchedule {
        store.SetSetting(ScheduleEnabledKey, "false");
        userData := userData[userId := ud.(waiting := None)];
      } else {
        store.SetSetting(LastCheckKey, stamp);
      }
    }

    /** The menu buttons: they open a prompt, enter an admin's room or go back, and leave the database alone. */
    method PressMenu(userId: int, b: Button)
      requires !Removes(b) && b != UserbotDisableSchedule && b != CheckUserbot
      requires !(SuperOnly(b) && userId != superAdminId)
      modifies this
      ensures forall stamp ::
        Session(store.Snapshot(), UserDataOf(userId))
          == CallbackEffect(store.Snapshot(), old(UserDataOf(userId)), userId, superAdminId, b, stamp)
      ensures forall u :: u != userId ==> UserDataOf(u) == old(UserDataOf(u))
    {
      var ud := UserDataOf(userId);
      match b
      case AddAdmin =>
        userData := userData[userId := ud.(waiting := Some(AwaitAdminId))];
      case Enter(a) =>
        if a.Some? {
          userData := userData[userId := ud.(viewingAdmin := a)];
        }
      case UserbotSettings =>
        userData := userData[userId := ud.(waiting := Some(AwaitUserbotTime))];
      case AddKeyword =>
        userData := userData[userId := ud.(waiting := Some(AwaitKeyword))];
      case AddPrivateGroup =>
        userData := userData[userId := ud.(waiting := Some(AwaitPrivateGroup))];
      case AddSearchGroup =>
        userData := userData[userId := ud.(waiting := Some(AwaitSearchGroup))];
      case BackToMain =>
        userData := userData[userId := if userId == superAdminId then Fresh else ud.(waiting := None)];
      case _ =>
    }

    /**
     * `check_group_message`: nothing for an empty text or a chat that is not
     * a group or supergroup; otherwise one notification, carrying the full
     * text, per match with a truthy private group id.
     */
    method CheckGroupMessage(msg: GroupMessage) returns (sent: seq<Notification>)
      requires Valid()
      ensures msg.text == "" || !(msg.kind == GroupChat || msg.kind == Supergroup) ==> sent == []
      ensures msg.text != "" && (msg.kind == GroupChat || msg.kind == Supergroup) ==>
        sent == Deliveries(store.Matches(msg.chatId, msg.text), StrOr(msg.title, "Unknown group"),
                           StrOr(msg.fromUsername, StrOr(msg.fromFirstName, "Unknown")), msg.fromId, msg.text)
    {
      sent := [];
      if msg.text == "" {
        return;
      }
      if msg.kind != GroupChat && msg.kind != Supergroup {
        return;
      }
      var username := StrOr(msg.fromUsername, StrOr(msg.fromFirstName, "Unknown"));
      var groupName := StrOr(msg.title, "Unknown group");
      var matches := store.CheckKeywordsInMessage(msg.chatId, msg.text);
      sent := SendAll(matches, groupName, username, msg.fromId, msg.text);
    }
  }
}

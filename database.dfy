/**
 * The relay's embedded store: five tables (admins, keywords, search_groups,
 * private_groups, settings) and the query that joins them to find which
 * admins' keywords occur in a message from a watched chat.
 *
 * `Tables` is the value of the whole store and its member functions are the
 * effect of each writing operation; `Store` is the store itself, one field per
 * table, whose methods perform those effects in place.
 */
module Database {
  import opened Wrappers
  import opened Text
  import opened Rows

  /** A search-group registration is refused once an ordinary admin holds this many rows. */
  const SearchGroupCap := 100

  /** The settings keys the bot writes and the userbot reads, and the defaults both fall back on. */
  const StopTimeKey := "userbot_stop_time"
  const StartTimeKey := "userbot_start_time"
  const ScheduleEnabledKey := "userbot_schedule_enabled"
  const LastCheckKey := "userbot_last_check"
  const DefaultStopTime := "00:00"
  const DefaultStartTime := "02:00"
  const DefaultScheduleEnabled := "true"

  // ------------------------------------------------------------------ rows

  /** `admins(user_id PRIMARY KEY, username)`; `added_date` is not modelled. */
  datatype AdminRow = AdminRow(userId: int, username: string)

  /** `keywords(id AUTOINCREMENT, admin_id, keyword)`. */
  datatype KeywordRow = KeywordRow(id: int, adminId: int, keyword: string)

  /** `search_groups(id AUTOINCREMENT, admin_id, group_id, group_link, group_name)`; NULL columns are `None`. */
  datatype SearchGroupRow =
    SearchGroupRow(id: int, adminId: int, groupId: Option<int>, groupLink: Option<string>, groupName: Option<string>)

  /** `private_groups(admin_id PRIMARY KEY, group_id, group_link, group_name)`. */
  datatype PrivateGroupRow =
    PrivateGroupRow(adminId: int, groupId: Option<int>, groupLink: Option<string>, groupName: Option<string>)

  /** One element of the list the keyword query returns: `{keyword, admin_id, private_group_id}`. */
  datatype Match = Match(keyword: string, adminId: int, privateGroupId: Option<int>)

  /** What `add_search_group` reports; each stands for the message text it returns with it. */
  datatype AddStatus = Added | LimitReached | AlreadyAdded

  function AdminUserId(r: AdminRow): int { r.userId }
  function KeywordId(r: KeywordRow): int { r.id }
  function KeywordAdmin(r: KeywordRow): int { r.adminId }
  function SearchGroupRowId(r: SearchGroupRow): int { r.id }
  function SearchGroupAdmin(r: SearchGroupRow): int { r.adminId }
  function PrivateGroupAdmin(r: PrivateGroupRow): int { r.adminId }

  /** The `group_id` column of an admin's private_groups row, NULL when the admin has none. */
  function PrivateGroupIdOf(pgs: seq<PrivateGroupRow>, adminId: int): Option<int> {
    var rows := Only(pgs, PrivateGroupAdmin, adminId);
    if rows == [] then None else rows[0].groupId
  }

  /** `SELECT id FROM search_groups WHERE admin_id = a AND group_id = g` finds a row. */
  predicate Registered(sgs: seq<SearchGroupRow>, adminId: int, groupId: int) {
    exists s :: s in sgs && s.adminId == adminId && s.groupId == Some(groupId)
  }

  /** Settings lookup with a default, as `get_setting(key, default)` does it. */
  function SettingOr(settings: map<string, string>, key: string, default: string): string {
    if key in settings then settings[key] else default
  }

  // ------------------------------------------------------------------ the store as a value

  datatype Tables = Tables(
    admins: seq<AdminRow>,
    keywords: seq<KeywordRow>,
    nextKeywordId: int,
    searchGroups: seq<SearchGroupRow>,
    nextSearchGroupId: int,
    privateGroups: seq<PrivateGroupRow>,
    settings: map<string, string>)
  {
    /** The primary keys of the schema hold, and AUTOINCREMENT has not yet handed out the next ids. */
    ghost predicate Valid() {
      && DistinctKeys(admins, AdminUserId)
      && DistinctKeys(keywords, KeywordId) && AllBelow(keywords, KeywordId, nextKeywordId)
      && DistinctKeys(searchGroups, SearchGroupRowId) && AllBelow(searchGroups, SearchGroupRowId, nextSearchGroupId)
      && DistinctKeys(privateGroups, PrivateGroupAdmin)
    }

    /** `is_admin`: the super-admin, or anyone with an admins row. */
    predicate IsAdmin(userId: int, superAdminId: int) {
      userId == superAdminId || HasKey(admins, AdminUserId, userId)
    }

    /** `add_admin`: a row is inserted only when no row has that `user_id`. */
    function WithAdmin(userId: int, username: string): Tables {
      if HasKey(admins, AdminUserId, userId) then this
      else this.(admins := admins + [AdminRow(userId, username)])
    }

    /** `remove_admin`: the admin's row and every keyword, search group and private group it owns. */
    function WithoutAdmin(userId: int): Tables {
      this.(admins := Without(admins, AdminUserId, userId),
            keywords := Without(keywords, KeywordAdmin, userId),
            searchGroups := Without(searchGroups, SearchGroupAdmin, userId),
            privateGroups := Without(privateGroups, PrivateGroupAdmin, userId))
    }

    /** `add_keyword`: a new row with the next row id. */
    function WithKeyword(adminId: int, keyword: string): Tables {
      this.(keywords := keywords + [KeywordRow(nextKeywordId, adminId, keyword)],
            nextKeywordId := nextKeywordId + 1)
    }

    /** `remove_keyword`: delete by row id. */
    function WithoutKeyword(id: int): Tables {
      this.(keywords := Without(keywords, KeywordId, id))
    }

    /**
     * The checks of `add_search_group`, in their order: the capacity cap for
     * everyone but the super-admin, then the duplicate check, made only for a
     * truthy `group_id`.
     */
    function Admission(adminId: int, superAdminId: int, groupId: Option<int>): AddStatus {
      if adminId != superAdminId && Count(searchGroups, SearchGroupAdmin, adminId) >= SearchGroupCap then LimitReached
      else if IntTruthy(groupId) && Registered(searchGroups, adminId, groupId.value) then AlreadyAdded
      else Added
    }

    /** `add_search_group`: a new row with the next row id when admitted, nothing otherwise. */
    function WithSearchGroup(adminId: int, superAdminId: int, groupId: Option<int>,
                             groupLink: Option<string>, groupName: Option<string>): Tables
    {
      if Admission(adminId, superAdminId, groupId) == Added then
        this.(searchGroups := searchGroups + [SearchGroupRow(nextSearchGroupId, adminId, groupId, groupLink, groupName)],
              nextSearchGroupId := nextSearchGroupId + 1)
      else this
    }

    /** `remove_search_group`: delete by row id. */
    function WithoutSearchGroup(id: int): Tables {
      this.(searchGroups := Without(searchGroups, SearchGroupRowId, id))
    }

    /** `add_private_group`: delete the admin's row, then insert the new one. */
    function WithPrivateGroup(adminId: int, groupId: Option<int>, groupLink: Option<string>, groupName: Option<string>): Tables {
      this.(privateGroups := Without(privateGroups, PrivateGroupAdmin, adminId)
                             + [PrivateGroupRow(adminId, groupId, groupLink, groupName)])
    }

    /** `remove_private_group`. */
    function WithoutPrivateGroup(adminId: int): Tables {
      this.(privateGroups := Without(privateGroups, PrivateGroupAdmin, adminId))
    }

    /** `set_setting`: INSERT OR REPLACE keyed by `key`. */
    function WithSetting(key: string, value: string): Tables {
      this.(settings := settings[key := value])
    }
  }

  /** The empty store `init_db` creates; AUTOINCREMENT starts at row id 1. */
  function EmptyTables(): (t: Tables)
    ensures t.Valid()
  {
    Tables([], [], 1, [], 1, [], map[])
  }

  // ------------------------------------------------------------------ properties of the writes

  lemma {:induction false} AbsentCountsZero<T(!new)>(s: seq<T>, key: T -> int, k: int)
    requires !HasKey(s, key, k)
    ensures Count(s, key, k) == 0
  {
    if Only(s, key, k) != [] {
      assert Only(s, key, k)[0] in Only(s, key, k);
    }
  }

  lemma {:induction false} DistinctCountAtMostOne<T(!new)>(s: seq<T>, key: T -> int, k: int)
    requires DistinctKeys(s, key)
    ensures Count(s, key, k) <= 1
    ensures HasKey(s, key, k) ==> Count(s, key, k) == 1
    decreases |s|
  {
    if s != [] {
      var tail := s[1..];
      assert DistinctKeys(tail, key) by {
        forall i, j | 0 <= i < j < |tail| ensures key(tail[i]) != key(tail[j]) {
          assert tail[i] == s[i + 1] && tail[j] == s[j + 1];
        }
      }
      forall y | y in tail ensures key(y) != key(s[0]) {
        var j :| 0 <= j < |tail| && tail[j] == y;
        assert s[j + 1] == y;
      }
      DistinctCountAtMostOne(tail, key, k);
      if key(s[0]) == k {
        AbsentCountsZero(tail, key, k);
      } else if HasKey(s, key, k) {
        var x :| x in s && key(x) == k;
        assert x in tail;
      }
    }
  }

  /**
   * `add_admin` is idempotent: on an existing `user_id` it changes nothing,
   * and after it exactly one admins row has that `user_id`, so a second call
   * is a no-op.
   */
  lemma AddAdminOnce(t: Tables, userId: int, name: string, again: string)
    requires t.Valid()
    ensures HasKey(t.admins, AdminUserId, userId) ==> t.WithAdmin(userId, name) == t
    ensures Count(t.WithAdmin(userId, name).admins, AdminUserId, userId) == 1
    ensures t.WithAdmin(userId, name).WithAdmin(userId, again) == t.WithAdmin(userId, name)
  {
    var row := AdminRow(userId, name);
    if HasKey(t.admins, AdminUserId, userId) {
      DistinctCountAtMostOne(t.admins, AdminUserId, userId);
    } else {
      AbsentCountsZero(t.admins, AdminUserId, userId);
      OnlyAppend(t.admins, row, AdminUserId, userId);
      assert row in t.admins + [row];
    }
  }

  lemma WithAdminValid(t: Tables, userId: int, name: string)
    requires t.Valid()
    ensures t.WithAdmin(userId, name).Valid()
  {
    if !HasKey(t.admins, AdminUserId, userId) {
      AppendKeepsDistinct(t.admins, AdminRow(userId, name), AdminUserId);
    }
  }

  /**
   * The cascade of `remove_admin`: afterwards no row of admins, keywords,
   * search_groups or private_groups refers to the admin, the rows of every
   * other admin are exactly as they were, and settings are untouched.
   */
  lemma RemoveAdminCascade(t: Tables, userId: int, other: int)
    requires other != userId
    ensures var r := t.WithoutAdmin(userId);
      && !HasKey(r.admins, AdminUserId, userId)
      && !HasKey(r.keywords, KeywordAdmin, userId)
      && !HasKey(r.searchGroups, SearchGroupAdmin, userId)
      && !HasKey(r.privateGroups, PrivateGroupAdmin, userId)
      && Only(r.admins, AdminUserId, other) == Only(t.admins, AdminUserId, other)
      && Only(r.keywords, KeywordAdmin, other) == Only(t.keywords, KeywordAdmin, other)
      && Only(r.searchGroups, SearchGroupAdmin, other) == Only(t.searchGroups, SearchGroupAdmin, other)
      && Only(r.privateGroups, PrivateGroupAdmin, other) == Only(t.privateGroups, PrivateGroupAdmin, other)
      && r.settings == t.settings
  {
    WithoutKeepsOthers(t.admins, AdminUserId, userId, other);
    WithoutKeepsOthers(t.keywords, KeywordAdmin, userId, other);
    WithoutKeepsOthers(t.searchGroups, SearchGroupAdmin, userId, other);
    WithoutKeepsOthers(t.privateGroups, PrivateGroupAdmin, userId, other);
  }

  lemma WithoutAdminValid(t: Tables, userId: int)
    requires t.Valid()
    ensures t.WithoutAdmin(userId).Valid()
  {
    WithoutKeepsDistinct(t.admins, AdminUserId, userId, AdminUserId);
    WithoutKeepsDistinct(t.keywords, KeywordAdmin, userId, KeywordId);
    WithoutKeepsDistinct(t.searchGroups, SearchGroupAdmin, userId, SearchGroupRowId);
    WithoutKeepsDistinct(t.privateGroups, PrivateGroupAdmin, userId, PrivateGroupAdmin);
  }

  lemma WithKeywordValid(t: Tables, adminId: int, keyword: string)
    requires t.Valid()
    ensures t.WithKeyword(adminId, keyword).Valid()
  {
    AppendFresh(t.keywords, KeywordRow(t.nextKeywordId, adminId, keyword), KeywordId, t.nextKeywordId);
  }

  lemma WithoutKeywordValid(t: Tables, id: int)
    requires t.Valid()
    ensures t.WithoutKeyword(id).Valid()
  {
    WithoutKeepsDistinct(t.keywords, KeywordId, id, KeywordId);
  }

  /** The super-admin is never refused for capacity, and a registration without a `group_id` is never a duplicate. */
  lemma AdmissionExemptions(t: Tables, adminId: int, superAdminId: int, groupId: Option<int>)
    ensures adminId == superAdminId ==> t.Admission(adminId, superAdminId, groupId) != LimitReached
    ensures !IntTruthy(groupId) ==> t.Admission(adminId, superAdminId, groupId) != AlreadyAdded
  {
  }

  /**
   * `add_search_group` either inserts exactly one row for the admin (and
   * reports success) or changes nothing; an ordinary admin with 100 rows is
   * refused, a truthy `group_id` the admin already registered is refused, and
   * every other registration is admitted. An admitted row is appended to the
   * table with the next row id; no other table changes.
   */
  lemma AddSearchGroupEffect(t: Tables, adminId: int, superAdminId: int, groupId: Option<int>,
                             groupLink: Option<string>, groupName: Option<string>)
    ensures var r := t.WithSearchGroup(adminId, superAdminId, groupId, groupLink, groupName);
      var status := t.Admission(adminId, superAdminId, groupId);
      && (adminId != superAdminId && Count(t.searchGroups, SearchGroupAdmin, adminId) >= SearchGroupCap ==> status == LimitReached)
      && (status != LimitReached && IntTruthy(groupId) && Registered(t.searchGroups, adminId, groupId.value) ==> status == AlreadyAdded)
      && (status == Added <==>
            !(adminId != superAdminId && Count(t.searchGroups, SearchGroupAdmin, adminId) >= SearchGroupCap)
            && !(IntTruthy(groupId) && Registered(t.searchGroups, adminId, groupId.value)))
      && (status != Added ==> r == t)
      && (status == Added ==>
            r.searchGroups == t.searchGroups + [SearchGroupRow(t.nextSearchGroupId, adminId, groupId, groupLink, groupName)]
            && r.admins == t.admins && r.keywords == t.keywords && r.nextKeywordId == t.nextKeywordId
            && r.privateGroups == t.privateGroups && r.settings == t.settings
            && Only(r.searchGroups, SearchGroupAdmin, adminId)
              == Only(t.searchGroups, SearchGroupAdmin, adminId)
                 + [SearchGroupRow(t.nextSearchGroupId, adminId, groupId, groupLink, groupName)]
            && Count(r.searchGroups, SearchGroupAdmin, adminId) == Count(t.searchGroups, SearchGroupAdmin, adminId) + 1)
  {
    var row := SearchGroupRow(t.nextSearchGroupId, adminId, groupId, groupLink, groupName);
    OnlyAppend(t.searchGroups, row, SearchGroupAdmin, adminId);
  }

  /** The cap is an invariant: an ordinary admin with at most 100 search groups still has at most 100 after any registration. */
  lemma SearchGroupCapKept(t: Tables, owner: int, adminId: int, superAdminId: int, groupId: Option<int>,
                           groupLink: Option<string>, groupName: Option<string>)
    requires owner != superAdminId
    requires Count(t.searchGroups, SearchGroupAdmin, owner) <= SearchGroupCap
    ensures Count(t.WithSearchGroup(adminId, superAdminId, groupId, groupLink, groupName).searchGroups,
                  SearchGroupAdmin, owner) <= SearchGroupCap
  {
    var row := SearchGroupRow(t.nextSearchGroupId, adminId, groupId, groupLink, groupName);
    OnlyAppend(t.searchGroups, row, SearchGroupAdmin, owner);
  }

  lemma WithSearchGroupValid(t: Tables, adminId: int, superAdminId: int, groupId: Option<int>,
                             groupLink: Option<string>, groupName: Option<string>)
    requires t.Valid()
    ensures t.WithSearchGroup(adminId, superAdminId, groupId, groupLink, groupName).Valid()
  {
    var row := SearchGroupRow(t.nextSearchGroupId, adminId, groupId, groupLink, groupName);
    AppendFresh(t.searchGroups, row, SearchGroupRowId, t.nextSearchGroupId);
  }

  lemma WithoutSearchGroupValid(t: Tables, id: int)
    requires t.Valid()
    ensures t.WithoutSearchGroup(id).Valid()
  {
    WithoutKeepsDistinct(t.searchGroups, SearchGroupRowId, id, SearchGroupRowId);
  }

  /**
   * `add_private_group` is an upsert: afterwards the admin has exactly one
   * private_groups row, holding this call's arguments, and every other
   * admin's row is as it was.
   */
  lemma PrivateGroupUpsert(t: Tables, adminId: int, groupId: Option<int>, groupLink: Option<string>,
                           groupName: Option<string>, other: int)
    requires other != adminId
    ensures var r := t.WithPrivateGroup(adminId, groupId, groupLink, groupName);
      && Only(r.privateGroups, PrivateGroupAdmin, adminId) == [PrivateGroupRow(adminId, groupId, groupLink, groupName)]
      && Only(r.privateGroups, PrivateGroupAdmin, other) == Only(t.privateGroups, PrivateGroupAdmin, other)
  {
    var row := PrivateGroupRow(adminId, groupId, groupLink, groupName);
    var kept := Without(t.privateGroups, PrivateGroupAdmin, adminId);
    OnlyAppend(kept, row, PrivateGroupAdmin, adminId);
    OnlyAppend(kept, row, PrivateGroupAdmin, other);
    WithoutCount(t.privateGroups, PrivateGroupAdmin, adminId);
    WithoutKeepsOthers(t.privateGroups, PrivateGroupAdmin, adminId, other);
  }

  /** Two successive `add_private_group` calls for one admin leave only the second call's row, whatever the first held. */
  lemma PrivateGroupUpsertTwice(t: Tables, adminId: int,
                                g1: Option<int>, l1: Option<string>, n1: Option<string>,
                                g2: Option<int>, l2: Option<string>, n2: Option<string>)
    ensures Only(t.WithPrivateGroup(adminId, g1, l1, n1).WithPrivateGroup(adminId, g2, l2, n2).privateGroups,
                 PrivateGroupAdmin, adminId) == [PrivateGroupRow(adminId, g2, l2, n2)]
  {
    PrivateGroupUpsert(t.WithPrivateGroup(adminId, g1, l1, n1), adminId, g2, l2, n2, adminId + 1);
  }

  lemma WithPrivateGroupValid(t: Tables, adminId: int, groupId: Option<int>, groupLink: Option<string>, groupName: Option<string>)
    requires t.Valid()
    ensures t.WithPrivateGroup(adminId, groupId, groupLink, groupName).Valid()
  {
    var row := PrivateGroupRow(adminId, groupId, groupLink, groupName);
    var kept := Without(t.privateGroups, PrivateGroupAdmin, adminId);
    WithoutKeepsDistinct(t.privateGroups, PrivateGroupAdmin, adminId, PrivateGroupAdmin);
    AppendKeepsDistinct(kept, row, PrivateGroupAdmin);
  }

  lemma WithoutPrivateGroupValid(t: Tables, adminId: int)
    requires t.Valid()
    ensures t.WithoutPrivateGroup(adminId).Valid()
  {
    WithoutKeepsDistinct(t.privateGroups, PrivateGroupAdmin, adminId, PrivateGroupAdmin);
  }

  // ------------------------------------------------------------------ the keyword query

  /** The joined row a keyword row contributes: its text, its owner, and the owner's private group id or NULL. */
  function JoinedRow(k: KeywordRow, pgs: seq<PrivateGroupRow>): Match {
    Match(k.keyword, k.adminId, PrivateGroupIdOf(pgs, k.adminId))
  }

  /** How many search_groups rows of admin `a` have `group_id == g`. */
  function Watchers(sgs: seq<SearchGroupRow>, a: int, g: int): nat
    decreases |sgs|
  {
    if sgs == [] then 0
    else (if sgs[0].adminId == a && sgs[0].groupId == Some(g) then 1 else 0) + Watchers(sgs[1..], a, g)
  }

  /** The joined rows of one keyword row: one per search_groups row of its owner that has `group_id == g`. */
  function JoinKeyword(k: KeywordRow, sgs: seq<SearchGroupRow>, pgs: seq<PrivateGroupRow>, g: int): (r: seq<Match>)
    ensures |r| == Watchers(sgs, k.adminId, g)
    ensures forall m :: m in r ==> m == JoinedRow(k, pgs)
    ensures r != [] <==> Registered(sgs, k.adminId, g)
    decreases |sgs|
  {
    if sgs == [] then []
    else
      var rest := JoinKeyword(k, sgs[1..], pgs, g);
      assert Registered(sgs, k.adminId, g) <==>
             (sgs[0].adminId == k.adminId && sgs[0].groupId == Some(g)) || Registered(sgs[1..], k.adminId, g) by {
        if Registered(sgs, k.adminId, g) {
          var s :| s in sgs && s.adminId == k.adminId && s.groupId == Some(g);
          if s != sgs[0] { assert s in sgs[1..]; }
        }
      }
      (if sgs[0].adminId == k.adminId && sgs[0].groupId == Some(g) then [JoinedRow(k, pgs)] else []) + rest
  }

  /**
   * `keywords k JOIN search_groups s ON k.admin_id = s.admin_id LEFT JOIN
   * private_groups p ON k.admin_id = p.admin_id WHERE s.group_id = g`: one
   * row per pair of a keyword row and a search_groups row of the same admin
   * watching `g`. SQL leaves the order open; this is keyword-major.
   */
  function JoinRows(kws: seq<KeywordRow>, sgs: seq<SearchGroupRow>, pgs: seq<PrivateGroupRow>, g: int): (r: seq<Match>)
    ensures forall m :: m in r <==> exists k :: k in kws && Registered(sgs, k.adminId, g) && m == JoinedRow(k, pgs)
    decreases |kws|
  {
    if kws == [] then []
    else
      var head := JoinKeyword(kws[0], sgs, pgs, g);
      var rest := JoinRows(kws[1..], sgs, pgs, g);
      assert forall m :: m in head <==> Registered(sgs, kws[0].adminId, g) && m == JoinedRow(kws[0], pgs) by {
        if Registered(sgs, kws[0].adminId, g) { assert head[0] in head; }
      }
      assert forall k :: k in kws <==> k == kws[0] || k in kws[1..] by {
        assert kws == [kws[0]] + kws[1..];
      }
      head + rest
  }

  /** The Python loop's filter over the joined rows: keep a row when its lower-cased keyword occurs in the lower-cased message. */
  function MatchingRows(rows: seq<Match>, messageLower: string): (r: seq<Match>)
    ensures forall m :: m in r <==> m in rows && Contains(Lower(m.keyword), messageLower)
    decreases |rows|
  {
    if rows == [] then []
    else
      var last := rows[|rows| - 1];
      assert rows == rows[..|rows| - 1] + [last];
      MatchingRows(rows[..|rows| - 1], messageLower) + (if Contains(Lower(last.keyword), messageLower) then [last] else [])
  }

  /** The number of matches the query promises: for each keyword row that occurs in the message, one per search group of its owner watching `g`. */
  function PairCount(kws: seq<KeywordRow>, sgs: seq<SearchGroupRow>, g: int, messageLower: string): nat
    decreases |kws|
  {
    if kws == [] then 0
    else (if Contains(Lower(kws[0].keyword), messageLower) then Watchers(sgs, kws[0].adminId, g) else 0)
         + PairCount(kws[1..], sgs, g, messageLower)
  }

  lemma {:induction false} MatchingConcat(a: seq<Match>, b: seq<Match>, ml: string)
    ensures MatchingRows(a + b, ml) == MatchingRows(a, ml) + MatchingRows(b, ml)
    decreases |b|
  {
    if b == [] {
      assert a + b == a;
    } else {
      var init := b[..|b| - 1];
      assert (a + b)[..|a + b| - 1] == a + init;
      assert (a + b)[|a + b| - 1] == b[|b| - 1];
      MatchingConcat(a, init, ml);
    }
  }

  lemma {:induction false} MatchingUniform(rows: seq<Match>, x: Match, ml: string)
    requires forall i :: 0 <= i < |rows| ==> rows[i] == x
    ensures MatchingRows(rows, ml) == if Contains(Lower(x.keyword), ml) then rows else []
    decreases |rows|
  {
    if rows != [] {
      var init := rows[..|rows| - 1];
      MatchingUniform(init, x, ml);
      assert rows == init + [x];
    }
  }

  /** One match per (keyword row, search-group row) pair: the number of matches is `PairCount`. */
  lemma {:induction false} MatchCount(kws: seq<KeywordRow>, sgs: seq<SearchGroupRow>, pgs: seq<PrivateGroupRow>,
                                      g: int, ml: string)
    ensures |MatchingRows(JoinRows(kws, sgs, pgs, g), ml)| == PairCount(kws, sgs, g, ml)
    decreases |kws|
  {
    if kws != [] {
      var head := JoinKeyword(kws[0], sgs, pgs, g);
      var rest := JoinRows(kws[1..], sgs, pgs, g);
      assert JoinRows(kws, sgs, pgs, g) == head + rest;
      MatchingConcat(head, rest, ml);
      assert forall i :: 0 <= i < |head| ==> head[i] == JoinedRow(kws[0], pgs) by {
        forall i | 0 <= i < |head| ensures head[i] == JoinedRow(kws[0], pgs) {
          assert head[i] in head;
        }
      }
      MatchingUniform(head, JoinedRow(kws[0], pgs), ml);
      MatchCount(kws[1..], sgs, pgs, g, ml);
    }
  }

  /**
   * What `check_keywords_in_message(g, text)` returns, element by element:
   * a match for keyword row `k` exactly when its owner has a search group
   * with `group_id == g` and `k`'s lower-cased text occurs in the lower-cased
   * message; the match carries the owner's private group id, or `None`.
   */
  lemma MatchMembers(kws: seq<KeywordRow>, sgs: seq<SearchGroupRow>, pgs: seq<PrivateGroupRow>, g: int, text: string)
    ensures forall m :: m in MatchingRows(JoinRows(kws, sgs, pgs, g), Lower(text)) <==>
      exists k :: k in kws && Registered(sgs, k.adminId, g) && Contains(Lower(k.keyword), Lower(text))
                  && m == JoinedRow(k, pgs)
  {
  }

  // ------------------------------------------------------------------ the store

  class Store {
    var admins: seq<AdminRow>
    var keywords: seq<KeywordRow>
    var nextKeywordId: int
    var searchGroups: seq<SearchGroupRow>
    var nextSearchGroupId: int
    var privateGroups: seq<PrivateGroupRow>
    var settings: map<string, string>

    /** The store's contents as a value. */
    function Snapshot(): Tables
      reads this
    {
      Tables(admins, keywords, nextKeywordId, searchGroups, nextSearchGroupId, privateGroups, settings)
    }

    ghost predicate Valid()
      reads this
    {
      Snapshot().Valid()
    }

    /** `init_db` on a new database file: five empty tables. */
    constructor ()
      ensures Valid()
      ensures Snapshot() == EmptyTables()
    {
      admins, keywords, nextKeywordId := [], [], 1;
      searchGroups, nextSearchGroupId := [], 1;
      privateGroups, settings := [], map[];
    }

    // ---------------------------------------------------------------- admins

    /** `add_admin`: `False` and no change when the `user_id` exists, otherwise one new row and `True`. */
    method AddAdmin(userId: int, username: string) returns (added: bool)
      requires Valid()
      modifies this
      ensures Valid()
      ensures added <==> !HasKey(old(admins), AdminUserId, userId)
      ensures Snapshot() == old(Snapshot()).WithAdmin(userId, username)
      ensures forall s :: IsAdmin(userId, s)
    {
      WithAdminValid(Snapshot(), userId, username);
      if HasKey(admins, AdminUserId, userId) {
        return false;
      }
      admins := admins + [AdminRow(userId, username)];
      assert AdminRow(userId, username) in admins;
      return true;
    }

    /** `is_admin`: the super-admin always is one; anyone else iff an admins row has their id. */
    function IsAdmin(userId: int, superAdminId: int): (r: bool)
      reads this
      ensures userId == superAdminId ==> r
      ensures userId != superAdminId ==> (r <==> exists a :: a in admins && a.userId == userId)
    {
      Snapshot().IsAdmin(userId, superAdminId)
    }

    /** `get_all_admins`: one `(user_id, username)` pair per admins row. */
    function GetAllAdmins(): (r: seq<(int, string)>)
      reads this
      ensures |r| == |admins|
      ensures forall p :: p in r <==> exists a :: a in admins && p == (a.userId, a.username)
    {
      var r := seq(|admins|, i requires 0 <= i < |admins| reads this => (admins[i].userId, admins[i].username));
      assert forall a :: a in admins ==> (a.userId, a.username) in r by {
        forall a | a in admins ensures (a.userId, a.username) in r {
          var i :| 0 <= i < |admins| && admins[i] == a;
          assert r[i] == (a.userId, a.username);
        }
      }
      r
    }

    /** `remove_admin`: the cascading delete; afterwards only the super-admin check can make the id an admin. */
    method RemoveAdmin(userId: int)
      requires Valid()
      modifies this
      ensures Valid()
      ensures Snapshot() == old(Snapshot()).WithoutAdmin(userId)
      ensures forall s :: IsAdmin(userId, s) <==> userId == s
    {
      WithoutAdminValid(Snapshot(), userId);
      admins := Without(admins, AdminUserId, userId);
      keywords := Without(keywords, KeywordAdmin, userId);
      searchGroups := Without(searchGroups, SearchGroupAdmin, userId);
      privateGroups := Without(privateGroups, PrivateGroupAdmin, userId);
    }

    // ---------------------------------------------------------------- keywords

    /** `add_keyword`: a new row with a fresh row id, which `get_keywords` then lists. */
    method AddKeyword(adminId: int, keyword: string)
      requires Valid()
      modifies this
      ensures Valid()
      ensures Snapshot() == old(Snapshot()).WithKeyword(adminId, keyword)
      ensures (old(nextKeywordId), keyword) in GetKeywords(adminId)
    {
      WithKeywordValid(Snapshot(), adminId, keyword);
      keywords := keywords + [KeywordRow(nextKeywordId, adminId, keyword)];
      nextKeywordId := nextKeywordId + 1;
      assert KeywordRow(nextKeywordId - 1, adminId, keyword) in keywords;
    }

    /** `get_keywords`: the `(id, keyword)` pairs of the admin's rows (the order by date is not modelled). */
    function GetKeywords(adminId: int): (r: seq<(int, string)>)
      reads this
      ensures |r| == Count(keywords, KeywordAdmin, adminId)
      ensures forall p :: p in r <==> exists k :: k in keywords && k.adminId == adminId && p == (k.id, k.keyword)
    {
      var rows := Only(keywords, KeywordAdmin, adminId);
      var r := seq(|rows|, i requires 0 <= i < |rows| => (rows[i].id, rows[i].keyword));
      assert forall p :: p in r ==> exists k :: k in rows && p == (k.id, k.keyword) by {
        forall p | p in r ensures exists k :: k in rows && p == (k.id, k.keyword) {
          var i :| 0 <= i < |r| && r[i] == p;
          assert rows[i] in rows;
        }
      }
      assert forall k :: k in rows ==> (k.id, k.keyword) in r by {
        forall k | k in rows ensures (k.id, k.keyword) in r {
          var i :| 0 <= i < |rows| && rows[i] == k;
          assert r[i] == (k.id, k.keyword);
        }
      }
      r
    }

    /** `remove_keyword`: delete by row id; no row keeps that id. */
    method RemoveKeyword(id: int)
      requires Valid()
      modifies this
      ensures Valid()
      ensures Snapshot() == old(Snapshot()).WithoutKeyword(id)
      ensures forall k :: k in keywords ==> k.id != id
    {
      WithoutKeywordValid(Snapshot(), id);
      keywords := Without(keywords, KeywordId, id);
    }

    // ---------------------------------------------------------------- search groups

    /** `add_search_group`: capacity check, duplicate check, then the insert. */
    method AddSearchGroup(adminId: int, superAdminId: int, groupId: Option<int>,
                          groupLink: Option<string>, groupName: Option<string>) returns (ok: bool, status: AddStatus)
      requires Valid()
      modifies this
      ensures Valid()
      ensures status == old(Snapshot()).Admission(adminId, superAdminId, groupId) && ok == (status == Added)
      ensures Snapshot() == old(Snapshot()).WithSearchGroup(adminId, superAdminId, groupId, groupLink, groupName)
    {
      WithSearchGroupValid(Snapshot(), adminId, superAdminId, groupId, groupLink, groupName);
      if adminId != superAdminId {
        var count := Count(searchGroups, SearchGroupAdmin, adminId);
        if count >= SearchGroupCap {
          return false, LimitReached;
        }
      }
      if IntTruthy(groupId) {
        if Registered(searchGroups, adminId, groupId.value) {
          return false, AlreadyAdded;
        }
      }
      searchGroups := searchGroups + [SearchGroupRow(nextSearchGroupId, adminId, groupId, groupLink, groupName)];
      nextSearchGroupId := nextSearchGroupId + 1;
      return true, Added;
    }

    /** `get_search_groups`: the `(id, group_name)` pairs of the admin's rows. */
    function GetSearchGroups(adminId: int): (r: seq<(int, Option<string>)>)
      reads this
      ensures |r| == Count(searchGroups, SearchGroupAdmin, adminId)
      ensures forall p :: p in r <==> exists s :: s in searchGroups && s.adminId == adminId && p == (s.id, s.groupName)
    {
      var rows := Only(searchGroups, SearchGroupAdmin, adminId);
      var r := seq(|rows|, i requires 0 <= i < |rows| => (rows[i].id, rows[i].groupName));
      assert forall p :: p in r ==> exists s :: s in rows && p == (s.id, s.groupName) by {
        forall p | p in r ensures exists s :: s in rows && p == (s.id, s.groupName) {
          var i :| 0 <= i < |r| && r[i] == p;
          assert rows[i] in rows;
        }
      }
      assert forall s :: s in rows ==> (s.id, s.groupName) in r by {
        forall s | s in rows ensures (s.id, s.groupName) in r {
          var i :| 0 <= i < |rows| && rows[i] == s;
          assert r[i] == (s.id, s.groupName);
        }
      }
      r
    }

    /** `remove_search_group`: delete by row id. */
    method RemoveSearchGroup(id: int)
      requires Valid()
      modifies this
      ensures Valid()
      ensures Snapshot() == old(Snapshot()).WithoutSearchGroup(id)
      ensures forall s :: s in searchGroups ==> s.id != id
    {
      WithoutSearchGroupValid(Snapshot(), id);
      searchGroups := Without(searchGroups, SearchGroupRowId, id);
    }

    // ---------------------------------------------------------------- private groups

    /** `add_private_group`: DELETE the admin's row, then INSERT; the lookups then return the new values. */
    method AddPrivateGroup(adminId: int, groupId: Option<int>, groupLink: Option<string>, groupName: Option<string>)
      requires Valid()
      modifies this
      ensures Valid()
      ensures Snapshot() == old(Snapshot()).WithPrivateGroup(adminId, groupId, groupLink, groupName)
      ensures GetPrivateGroupId(adminId) == groupId && GetPrivateGroupName(adminId) == groupName
    {
      WithPrivateGroupValid(Snapshot(), adminId, groupId, groupLink, groupName);
      privateGroups := Without(privateGroups, PrivateGroupAdmin, adminId);
      privateGroups := privateGroups + [PrivateGroupRow(adminId, groupId, groupLink, groupName)];
      assert PrivateGroupRow(adminId, groupId, groupLink, groupName) in privateGroups;
    }

    /** `get_private_group_id`: the admin's row's `group_id`, `None` without a row. */
    function GetPrivateGroupId(adminId: int): (r: Option<int>)
      requires Valid()
      reads this
      ensures !HasKey(privateGroups, PrivateGroupAdmin, adminId) ==> r == None
      ensures forall p :: p in privateGroups && p.adminId == adminId ==> r == p.groupId
    {
      DistinctCountAtMostOne(privateGroups, PrivateGroupAdmin, adminId);
      AbsentOnlyEmpty(privateGroups, adminId);
      PrivateGroupIdOf(privateGroups, adminId)
    }

    /** `get_private_group_name`: the admin's row's `group_name`, `None` without a row. */
    function GetPrivateGroupName(adminId: int): (r: Option<string>)
      requires Valid()
      reads this
      ensures !HasKey(privateGroups, PrivateGroupAdmin, adminId) ==> r == None
      ensures forall p :: p in privateGroups && p.adminId == adminId ==> r == p.groupName
    {
      DistinctCountAtMostOne(privateGroups, PrivateGroupAdmin, adminId);
      AbsentOnlyEmpty(privateGroups, adminId);
      var rows := Only(privateGroups, PrivateGroupAdmin, adminId);
      if rows == [] then None else rows[0].groupName
    }

    /** `remove_private_group`: afterwards both lookups return `None`. */
    method RemovePrivateGroup(adminId: int)
      requires Valid()
      modifies this
      ensures Valid()
      ensures Snapshot() == old(Snapshot()).WithoutPrivateGroup(adminId)
      ensures GetPrivateGroupId(adminId) == None && GetPrivateGroupName(adminId) == None
    {
      WithoutPrivateGroupValid(Snapshot(), adminId);
      privateGroups := Without(privateGroups, PrivateGroupAdmin, adminId);
    }

    // ---------------------------------------------------------------- settings

    /** `get_setting(key, default)`: the stored value, or `default` when the key is absent. */
    function GetSetting(key: string, default: Option<string>): (r: Option<string>)
      reads this
      ensures key !in settings ==> r == default
      ensures key in settings ==> r == Some(settings[key])
    {
      if key in settings then Some(settings[key]) else default
    }

    /** `set_setting`: INSERT OR REPLACE; the key then reads back as `value` and no other key changes. */
    method SetSetting(key: string, value: string)
      requires Valid()
      modifies this
      ensures Valid()
      ensures Snapshot() == old(Snapshot()).WithSetting(key, value)
      ensures forall d :: GetSetting(key, d) == Some(value)
      ensures forall k :: k != key ==> GetSetting(k, None) == old(GetSetting(k, None))
    {
      settings := settings[key := value];
    }

    // ---------------------------------------------------------------- the keyword query

    /**
     * The list `check_keywords_in_message(groupId, messageText)` returns: a
     * match for keyword row `k` exactly when its owner has a search group
     * with `group_id == groupId` and `k`'s lower-cased text occurs in the
     * lower-cased message, carrying the owner's private group id; one match
     * per such (keyword row, search group row) pair.
     */
    function Matches(groupId: int, messageText: string): (r: seq<Match>)
      requires Valid()
      reads this
      ensures forall m :: m in r <==>
        exists k :: k in keywords && Registered(searchGroups, k.adminId, groupId)
                    && Contains(Lower(k.keyword), Lower(messageText))
                    && m == Match(k.keyword, k.adminId, GetPrivateGroupId(k.adminId))
      ensures |r| == PairCount(keywords, searchGroups, groupId, Lower(messageText))
    {
      MatchMembers(keywords, searchGroups, privateGroups, groupId, messageText);
      MatchCount(keywords, searchGroups, privateGroups, groupId, Lower(messageText));
      MatchingRows(JoinRows(keywords, searchGroups, privateGroups, groupId), Lower(messageText))
    }

    /**
     * `check_keywords_in_message`: runs the join, then keeps, in a loop, the
     * rows whose lower-cased keyword occurs in the lower-cased message.
     */
    method CheckKeywordsInMessage(groupId: int, messageText: string) returns (matches: seq<Match>)
      requires Valid()
      ensures matches == Matches(groupId, messageText)
    {
      var rows := JoinRows(keywords, searchGroups, privateGroups, groupId);
      var messageLower := Lower(messageText);
      matches := [];
      var i := 0;
      while i < |rows|
        invariant 0 <= i <= |rows|
        invariant matches == MatchingRows(rows[..i], messageLower)
      {
        var row := rows[i];
        assert rows[..i + 1] == rows[..i] + [row];
        if Contains(Lower(row.keyword), messageLower) {
          matches := matches + [row];
        }
        i := i + 1;
      }
      assert rows[..|rows|] == rows;
    }
  }

  lemma AbsentOnlyEmpty(pgs: seq<PrivateGroupRow>, adminId: int)
    ensures !HasKey(pgs, PrivateGroupAdmin, adminId) <==> Only(pgs, PrivateGroupAdmin, adminId) == []
  {
    if Only(pgs, PrivateGroupAdmin, adminId) != [] {
      assert Only(pgs, PrivateGroupAdmin, adminId)[0] in Only(pgs, PrivateGroupAdmin, adminId);
    }
  }
}

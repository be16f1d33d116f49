/**
 * The handlers of main.py and the state they change: the global word cache,
 * the `users` table behind the database client, and what the bot does in
 * chats, kept as a trace of effects (message deleted, member banned, message
 * sent). Each handler first applies the filters it is registered with.
 */
module Bot {
  import opened Wrappers
  import opened Text
  import opened Telegram
  import opened Filters
  import opened Store
  import opened Detector

  /** The ban rule: three warnings. The source writes 3 here, not `MAX_WARNINGS`. */
  const BanThreshold := 3

  /** What the bot says in a chat: the facts each message carries, not its wording. */
  datatype Notice =
    | WarningNotice(name: string, reason: Reason, count: int, outOf: int)
    | BanNotice(name: string, reason: Reason)
    | ReloadReport(total: nat)
    | EventUsage
    | EventPoll(title: string)
    | UnwarnUsage
    | UnwarnAdminRefused
    | UnwarnBotRefused
    | UnwarnDone(name: string, count: int)
    | Welcome(name: string)

  /** One thing the bot does in a chat. */
  datatype Effect =
    | Deleted(chatId: int, messageId: int)
    | Banned(chatId: int, userId: int)
    | Sent(chatId: int, notice: Notice)

  /** Which of the calls one `apply_sanction` makes succeed. */
  datatype Faults = Faults(deleteOk: bool, readOk: bool, writeOk: bool, banOk: bool, sendOk: bool)

  /** No call fails. */
  const Smooth := Faults(true, true, true, true, true)

  /** What a handler leaves: the `users` table afterwards and the effects, in order. */
  datatype Outcome = Outcome(table: Table, effects: seq<Effect>)

  /** The message has a sender who is no administrator: someone `apply_sanction` acts on. */
  predicate Offender(m: Message, admins: set<int>) {
    m.sender.Some? && m.sender.value.id !in admins
  }

  /** The effect sequence holds a notice of the warning kind. */
  predicate HasWarningNotice(effects: seq<Effect>) {
    exists i :: 0 <= i < |effects| && effects[i].Sent? && effects[i].notice.WarningNotice?
  }

  /**
   * `apply_sanction`: nothing for an administrator (nor for a message without a
   * sender, where reading the sender's id raises). Otherwise, in this order:
   * delete the message, `add_warning`, then ban and announce the ban when the
   * returned count is at least 3, or else announce the warning with `count/3`.
   * A step that fails ends the sanction: a failed deletion leaves the counter
   * alone, a failed ban leaves no notice.
   */
  function Sanction(t: Table, m: Message, reason: Reason, admins: set<int>, f: Faults): (o: Outcome)
    ensures !Offender(m, admins) ==> o == Outcome(t, [])
    ensures !f.deleteOk ==> o == Outcome(t, [])
    ensures Offender(m, admins) && f.deleteOk ==>
      && o.table == AddWarningOutcome(t, m.sender.value.id, f.readOk, f.writeOk).table
      && |o.effects| >= 1 && o.effects[0] == Deleted(m.chatId, m.messageId)
    ensures forall i :: 0 <= i < |o.effects| ==> o.effects[i].chatId == m.chatId
    ensures CountsNonNegative(t) ==> CountsNonNegative(o.table)
  {
    match m.sender
    case None => Outcome(t, [])
    case Some(u) =>
      if u.id in admins || !f.deleteOk then Outcome(t, [])
      else
        var w := AddWarningOutcome(t, u.id, f.readOk, f.writeOk);
        var deleted := Deleted(m.chatId, m.messageId);
        if w.count >= BanThreshold then
          if !f.banOk then Outcome(w.table, [deleted])
          else
            var banned := Banned(m.chatId, u.id);
            if f.sendOk then Outcome(w.table, [deleted, banned, Sent(m.chatId, BanNotice(u.fullName, reason))])
            else Outcome(w.table, [deleted, banned])
        else
          var notice := Sent(m.chatId, WarningNotice(u.fullName, reason, w.count, BanThreshold));
          if f.sendOk then
            assert [deleted, notice][1] == notice;
            Outcome(w.table, [deleted, notice])
          else Outcome(w.table, [deleted])
  }

  /**
   * The effects of a sanction that gets past the deletion, in order and with
   * nothing else: the deletion; the ban exactly when the count reaches 3 and
   * the ban call succeeds, then its notice exactly when that is sent too; or
   * else the warning notice `count/3` exactly when the count is below 3 and
   * it is sent.
   */
  lemma SanctionEffects(t: Table, m: Message, reason: Reason, admins: set<int>, f: Faults)
    requires Offender(m, admins) && f.deleteOk
    ensures var o := Sanction(t, m, reason, admins, f);
      var u := m.sender.value;
      var w := AddWarningOutcome(t, u.id, f.readOk, f.writeOk);
      var banning := w.count >= BanThreshold && f.banOk;
      && |o.effects| == 1 + (if banning then 1 else 0) + (if banning && f.sendOk then 1 else 0)
                          + (if w.count < BanThreshold && f.sendOk then 1 else 0)
      && (banning ==> o.effects[1] == Banned(m.chatId, u.id))
      && (banning && f.sendOk ==> o.effects[2] == Sent(m.chatId, BanNotice(u.fullName, reason)))
      && (w.count < BanThreshold && f.sendOk ==> o.effects[1] == Sent(m.chatId, WarningNotice(u.fullName, reason, w.count, BanThreshold)))
      && (Banned(m.chatId, u.id) in o.effects <==> banning)
      && (Sent(m.chatId, BanNotice(u.fullName, reason)) in o.effects <==> banning && f.sendOk)
      && (HasWarningNotice(o.effects) <==> w.count < BanThreshold && f.sendOk)
  {
    var o := Sanction(t, m, reason, admins, f);
    var w := AddWarningOutcome(t, m.sender.value.id, f.readOk, f.writeOk);
    if w.count < BanThreshold && f.sendOk {
      assert o.effects[1].Sent? && o.effects[1].notice.WarningNotice?;
    }
  }

  /**
   * The checks of `moderation_handler`, with the filters it is registered
   * with (text present, group chat, sender no administrator): at most one
   * sanction, for the first rule the lower-cased text breaks.
   */
  function Moderate(t: Table, cache: seq<string>, m: Message, admins: set<int>, f: Faults): (o: Outcome)
    ensures m.text.None? || m.text.value == [] || !IsGroupChat(m) || IsAdmin(m, admins) ==> o == Outcome(t, [])
    ensures m.text.Some? && m.text.value != [] && IsGroupChat(m) && !IsAdmin(m, admins) ==>
      match Classify(m.text.value, cache)
      case Clean => o == Outcome(t, [])
      case Violation(reason) => o == Sanction(t, m, reason, admins, f)
  {
    if m.text.None? || m.text.value == [] || !IsGroupChat(m) || IsAdmin(m, admins) then Outcome(t, [])
    else
      match Classify(m.text.value, cache)
      case Clean => Outcome(t, [])
      case Violation(reason) => Sanction(t, m, reason, admins, f)
  }

  /** A message that breaks both rules is sanctioned once, and any notice names the link rule. */
  lemma LinkAndWordSanctionedOnceForLink(t: Table, cache: seq<string>, m: Message, admins: set<int>, f: Faults)
    requires m.text.Some? && m.text.value != [] && IsGroupChat(m) && !IsAdmin(m, admins)
    requires ContainsLink(ToLower(m.text.value)) && ContainsForbiddenWord(ToLower(m.text.value), cache)
    ensures Moderate(t, cache, m, admins, f) == Sanction(t, m, AdsAndLinks, admins, f)
    ensures forall i :: 0 <= i < |Moderate(t, cache, m, admins, f).effects| ==>
      Moderate(t, cache, m, admins, f).effects[i] != Deleted(m.chatId, m.messageId) || i == 0
  {
    LinkBeatsWord(m.text.value, cache);
  }

  /** `n` violations in a row from the sender of `m`, none of whose calls fails. */
  function Repeated(t: Table, m: Message, reason: Reason, admins: set<int>, n: nat): (o: Outcome)
    decreases n
  {
    if n == 0 then Outcome(t, [])
    else
      var before := Repeated(t, m, reason, admins, n - 1);
      var step := Sanction(before.table, m, reason, admins, Smooth);
      Outcome(step.table, before.effects + step.effects)
  }

  /** Without failures one violation adds exactly one to the stored counter. */
  lemma SmoothSanctionAddsOne(t: Table, m: Message, reason: Reason, admins: set<int>)
    requires Offender(m, admins)
    ensures StoredCount(Sanction(t, m, reason, admins, Smooth).table, m.sender.value.id) == StoredCount(t, m.sender.value.id) + 1
  {
  }

  /** Without failures every violation adds exactly one to the stored counter, and nothing resets it. */
  lemma {:induction false} RepeatedViolationsCount(t: Table, m: Message, reason: Reason, admins: set<int>, n: nat)
    requires Offender(m, admins)
    ensures StoredCount(Repeated(t, m, reason, admins, n).table, m.sender.value.id) == StoredCount(t, m.sender.value.id) + n
    decreases n
  {
    if n > 0 {
      var before := Repeated(t, m, reason, admins, n - 1);
      RepeatedViolationsCount(t, m, reason, admins, n - 1);
      SmoothSanctionAddsOne(before.table, m, reason, admins);
    }
  }

  /**
   * Escalation without failures: violation number `n + 1` bans exactly when the
   * counter it starts from plus `n + 1` reaches 3, and once one violation bans,
   * every later one bans again, since the counter is never reset.
   */
  lemma ViolationBansIff(t: Table, m: Message, reason: Reason, admins: set<int>, n: nat)
    requires Offender(m, admins)
    ensures var before := Repeated(t, m, reason, admins, n);
            var u := m.sender.value;
            var banned := Banned(m.chatId, u.id) in Sanction(before.table, m, reason, admins, Smooth).effects;
            banned <==> StoredCount(t, u.id) + n + 1 >= BanThreshold
  {
    RepeatedViolationsCount(t, m, reason, admins, n);
  }

  /** A user with no record is warned on the first and second violation and banned on the third. */
  lemma ThirdViolationBansNewUser(t: Table, m: Message, reason: Reason, admins: set<int>)
    requires Offender(m, admins) && m.sender.value.id !in t
    ensures !(Banned(m.chatId, m.sender.value.id) in Sanction(Repeated(t, m, reason, admins, 0).table, m, reason, admins, Smooth).effects)
    ensures !(Banned(m.chatId, m.sender.value.id) in Sanction(Repeated(t, m, reason, admins, 1).table, m, reason, admins, Smooth).effects)
    ensures Banned(m.chatId, m.sender.value.id) in Sanction(Repeated(t, m, reason, admins, 2).table, m, reason, admins, Smooth).effects
  {
    ViolationBansIff(t, m, reason, admins, 0);
    ViolationBansIff(t, m, reason, admins, 1);
    ViolationBansIff(t, m, reason, admins, 2);
  }

  /** The human members of a join: neither the bot itself nor another bot. */
  predicate Greetable(u: User, botId: int) {
    u.id != botId && !u.isBot
  }

  /** The members `on_new_chat_members` welcomes, in the order they joined. */
  function Greeted(members: seq<User>, botId: int): (us: seq<User>)
    ensures |us| <= |members|
    decreases |members|
  {
    if members == [] then []
    else
      var last := members[|members| - 1];
      var init := members[..|members| - 1];
      assert members == init + [last];
      Greeted(init, botId) + (if Greetable(last, botId) then [last] else [])
  }

  /** Greeting one more member extends the greeted list by that member, if human. */
  lemma GreetedSnoc(members: seq<User>, u: User, botId: int)
    ensures Greeted(members + [u], botId) == Greeted(members, botId) + (if Greetable(u, botId) then [u] else [])
  {
    assert (members + [u])[..|members|] == members;
  }

  /** Greeting works member by member, so the greeted keep the order in which they joined. */
  lemma {:induction false} GreetedAppend(a: seq<User>, b: seq<User>, botId: int)
    ensures Greeted(a + b, botId) == Greeted(a, botId) + Greeted(b, botId)
    decreases |b|
  {
    if b == [] {
      assert a + b == a;
    } else {
      var init, last := b[..|b| - 1], b[|b| - 1];
      assert b == init + [last];
      assert a + b == (a + init) + [last];
      GreetedAppend(a, init, botId);
      GreetedSnoc(a + init, last, botId);
      GreetedSnoc(init, last, botId);
    }
  }

  /** Exactly the human members who joined are greeted. */
  lemma {:induction false} GreetedMembers(members: seq<User>, botId: int, u: User)
    ensures u in Greeted(members, botId) <==> u in members && Greetable(u, botId)
    decreases |members|
  {
    if members != [] {
      var init := members[..|members| - 1];
      var last := members[|members| - 1];
      assert members == init + [last];
      GreetedMembers(init, botId, u);
    }
  }

  /** The welcome messages for `us`, one each, in order. */
  function Welcomes(chatId: int, us: seq<User>): (es: seq<Effect>)
    ensures |es| == |us|
    ensures forall i :: 0 <= i < |us| ==> es[i] == Sent(chatId, Welcome(us[i].fullName))
    decreases |us|
  {
    if us == [] then [] else Welcomes(chatId, us[..|us| - 1]) + [Sent(chatId, Welcome(us[|us| - 1].fullName))]
  }

  /** One more welcomed member appends one welcome message. */
  lemma WelcomesSnoc(chatId: int, us: seq<User>, u: User)
    ensures Welcomes(chatId, us + [u]) == Welcomes(chatId, us) + [Sent(chatId, Welcome(u.fullName))]
  {
    assert (us + [u])[..|us|] == us;
  }

  /** The bot: its word cache, the database client and the effects it has had on chats so far. */
  class Moderator {
    const db: Database
    /** `BAD_WORDS_CACHE`. */
    var cache: seq<string>
    /** Everything the bot has done in chats, oldest first. */
    var trace: seq<Effect>

    /** The bot at start-up, before the first reload: an empty cache. */
    constructor (db: Database)
      ensures this.db == db && cache == [] && trace == []
    {
      this.db := db;
      cache := [];
      trace := [];
    }

    /**
     * `reload_bad_words_cache`: the cache becomes exactly what `get_bad_words`
     * returns, so a failed fetch empties it.
     */
    method ReloadBadWordsCache(fetchOk: bool)
      modifies this
      ensures cache == db.GetBadWords(fetchOk)
      ensures !fetchOk ==> cache == []
      ensures trace == old(trace)
    {
      var words := db.GetBadWords(fetchOk);
      cache := words;
    }

    /** `cmd_reload`, for an administrator in a private chat: reload, then report the cache size. */
    method CmdReload(m: Message, admins: set<int>, fetchOk: bool)
      modifies this
      ensures IsProtectedAdmin(m, admins) != Some(true) ==> cache == old(cache) && trace == old(trace)
      ensures IsProtectedAdmin(m, admins) == Some(true) ==>
        cache == db.GetBadWords(fetchOk) && trace == old(trace) + [Sent(m.chatId, ReloadReport(|cache|))]
    {
      if IsProtectedAdmin(m, admins) != Some(true) {
        return;
      }
      ReloadBadWordsCache(fetchOk);
      trace := trace + [Sent(m.chatId, ReloadReport(|cache|))];
    }

    /** `cmd_create_event`, for an administrator in a group: a poll with the title, or the usage hint. */
    method CmdCreateEvent(m: Message, admins: set<int>)
      modifies this
      ensures cache == old(cache)
      ensures m.text.None? || !IsAdmin(m, admins) || !IsGroupChat(m) ==> trace == old(trace)
      ensures m.text.Some? && IsAdmin(m, admins) && IsGroupChat(m) ==>
        trace == old(trace) + [Sent(m.chatId, match EventTitle(m.text.value)
                                               case None => EventUsage
                                               case Some(title) => EventPoll(title))]
    {
      if m.text.None? || !IsAdmin(m, admins) || !IsGroupChat(m) {
        return;
      }
      var title := EventTitle(m.text.value);
      if title.None? {
        trace := trace + [Sent(m.chatId, EventUsage)];
        return;
      }
      trace := trace + [Sent(m.chatId, EventPoll(title.value))];
    }

    /**
     * `cmd_unwarn`, for an administrator in a group: each refusal answers and
     * leaves the table alone; past all three guards, `remove_warning` runs on
     * the replied-to user and the new count is reported.
     */
    method CmdUnwarn(m: Message, admins: set<int>, readOk: bool, writeOk: bool)
      modifies this, db
      ensures cache == old(cache) && db.badWords == old(db.badWords)
      ensures !IsAdmin(m, admins) || !IsGroupChat(m) ==> db.users == old(db.users) && trace == old(trace)
      ensures IsAdmin(m, admins) && IsGroupChat(m) ==>
        match CheckUnwarn(m, admins)
        case NoReplyTarget => db.users == old(db.users) && trace == old(trace) + [Sent(m.chatId, UnwarnUsage)]
        case TargetIsAdmin => db.users == old(db.users) && trace == old(trace) + [Sent(m.chatId, UnwarnAdminRefused)]
        case TargetIsBot => db.users == old(db.users) && trace == old(trace) + [Sent(m.chatId, UnwarnBotRefused)]
        case Proceed(u) =>
          var r := RemoveWarningOutcome(old(db.users), u.id, readOk, writeOk);
          db.users == r.table && trace == old(trace) + [Sent(m.chatId, UnwarnDone(u.fullName, r.count))]
    {
      if !IsAdmin(m, admins) || !IsGroupChat(m) {
        return;
      }
      var guard := CheckUnwarn(m, admins);
      match guard {
        case NoReplyTarget =>
          trace := trace + [Sent(m.chatId, UnwarnUsage)];
        case TargetIsAdmin =>
          trace := trace + [Sent(m.chatId, UnwarnAdminRefused)];
        case TargetIsBot =>
          trace := trace + [Sent(m.chatId, UnwarnBotRefused)];
        case Proceed(u) =>
          var count := db.RemoveWarning(u.id, readOk, writeOk);
          trace := trace + [Sent(m.chatId, UnwarnDone(u.fullName, count))];
      }
    }

    /** `apply_sanction`, one step at a time with early exit; see `Sanction`. */
    method ApplySanction(m: Message, reason: Reason, admins: set<int>, f: Faults)
      modifies this, db
      ensures var o := Sanction(old(db.users), m, reason, admins, f);
              db.users == o.table && trace == old(trace) + o.effects
      ensures cache == old(cache) && db.badWords == old(db.badWords)
    {
      if m.sender.None? {
        return;
      }
      var u := m.sender.value;
      if u.id in admins {
        return;
      }
      if !f.deleteOk {
        return;
      }
      trace := trace + [Deleted(m.chatId, m.messageId)];
      var count := db.AddWarning(u.id, f.readOk, f.writeOk);
      if count >= BanThreshold {
        if !f.banOk {
          return;
        }
        trace := trace + [Banned(m.chatId, u.id)];
        if f.sendOk {
          trace := trace + [Sent(m.chatId, BanNotice(u.fullName, reason))];
        }
      } else if f.sendOk {
        trace := trace + [Sent(m.chatId, WarningNotice(u.fullName, reason, count, BanThreshold))];
      }
    }

    /** `moderation_handler`; see `Moderate`. */
    method ModerationHandler(m: Message, admins: set<int>, f: Faults)
      modifies this, db
      ensures var o := Moderate(old(db.users), old(cache), m, admins, f);
              db.users == o.table && trace == old(trace) + o.effects
      ensures cache == old(cache) && db.badWords == old(db.badWords)
    {
      if m.text.None? || m.text.value == [] || !IsGroupChat(m) || IsAdmin(m, admins) {
        return;
      }
      var verdict := Classify(m.text.value, cache);
      if verdict.Violation? {
        ApplySanction(m, verdict.reason, admins, f);
      }
    }

    /**
     * `on_new_chat_members`, for a message that reports joins: try to delete
     * it, then welcome each joining member in turn, skipping the bot itself
     * and other bots.
     */
    method OnNewChatMembers(m: Message, botId: int, deleteOk: bool)
      modifies this
      ensures cache == old(cache)
      ensures m.newMembers == [] ==> trace == old(trace)
      ensures m.newMembers != [] ==>
        trace == old(trace) + (if deleteOk then [Deleted(m.chatId, m.messageId)] else [])
                            + Welcomes(m.chatId, Greeted(m.newMembers, botId))
    {
      if m.newMembers == [] {
        return;
      }
      if deleteOk {
        trace := trace + [Deleted(m.chatId, m.messageId)];
      }
      WelcomeAll(m.chatId, m.newMembers, botId);
    }

    /** The loop of `on_new_chat_members`: one welcome per human member, in order. */
    method WelcomeAll(chatId: int, members: seq<User>, botId: int)
      modifies this
      ensures cache == old(cache)
      ensures trace == old(trace) + Welcomes(chatId, Greeted(members, botId))
    {
      for i := 0 to |members|
        invariant cache == old(cache)
        invariant trace == old(trace) + Welcomes(chatId, Greeted(members[..i], botId))
      {
        var u := members[i];
        ghost var greeted := Greeted(members[..i], botId);
        assert members[..i + 1] == members[..i] + [u];
        GreetedSnoc(members[..i], u, botId);
        if u.id == botId || u.isBot {
          assert greeted + [] == greeted;
          continue;
        }
        WelcomesSnoc(chatId, greeted, u);
        trace := trace + [Sent(chatId, Welcome(u.fullName))];
      }
      assert members[..|members|] == members;
    }
  }
}

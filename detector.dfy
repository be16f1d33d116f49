/**
 * The decisions main.py makes without side effects: whether a message breaks
 * a rule and which, the title of an `/event` command, and whether an
 * `/unwarn` command may go ahead.
 */
module Detector {
  import opened Wrappers
  import opened Text
  import opened Telegram

  /** Opener `p` of the link pattern at index `i` of `t`, followed by at least one non-whitespace character. */
  predicate OpenerAt(t: string, i: int, p: string) {
    OccursAt(t, i, p) && i + |p| < |t| && !IsSpace(t[i + |p|])
  }

  /** The link pattern `(https?://|t\.me/|@)[^\s]+` matches at index `i` of `t`. */
  predicate LinkAt(t: string, i: int) {
    || OpenerAt(t, i, "http://")
    || OpenerAt(t, i, "https://")
    || OpenerAt(t, i, "t.me/")
    || OpenerAt(t, i, "@")
  }

  /** `re.search` of the link pattern in `t[i..]`: try each start position from left to right. */
  function SearchLink(t: string, i: nat): (found: bool)
    requires i <= |t|
    ensures found <==> exists k :: i <= k < |t| && LinkAt(t, k)
    decreases |t| - i
  {
    if i == |t| then false else LinkAt(t, i) || SearchLink(t, i + 1)
  }

  /** The text contains a link or a mention. */
  predicate ContainsLink(t: string) {
    SearchLink(t, 0)
  }

  /** A lone `@` at the end of a text is no mention: the pattern needs a character after it. */
  lemma TrailingAtIsNoLink(t: string)
    requires |t| > 0 && t[|t| - 1] == '@'
    ensures !LinkAt(t, |t| - 1)
  {
  }

  lemma MentionIsLink()
    ensures ContainsLink("@spam")
  {
    assert "@spam"[0..1] == "@";
    assert LinkAt("@spam", 0);
  }

  /** `any(word in text for word in cache)`: some cached word occurs in the text as a substring. */
  predicate ContainsForbiddenWord(text: string, cache: seq<string>) {
    exists i :: 0 <= i < |cache| && IsSubstring(cache[i], text)
  }

  /** Matching is by substring, not by whole word: `class` fires on `classic`. */
  lemma SubstringNotWholeWord()
    ensures ContainsForbiddenWord("classic", ["class"])
  {
    assert "classic"[0..5] == "class";
    assert OccursAt("classic", 0, "class");
    assert IsSubstring(["class"][0], "classic");
  }

  /** An empty cached word fires on every text. */
  lemma EmptyWordFiresEverywhere(text: string, cache: seq<string>)
    requires "" in cache
    ensures ContainsForbiddenWord(text, cache)
  {
    var i :| 0 <= i < |cache| && cache[i] == "";
    assert OccursAt(text, 0, cache[i]);
  }

  /**
   * The cache is not lower-cased but the text is, so a cached word holding a
   * capital letter never fires.
   */
  lemma CapitalisedWordNeverFires(text: string, w: string, j: nat)
    requires j < |w| && IsUpper(w[j])
    ensures !IsSubstring(w, ToLower(text))
  {
    var lower := ToLower(text);
    forall k | 0 <= k <= |lower| - |w|
      ensures !OccursAt(lower, k, w)
    {
      assert lower[k..k + |w|][j] == lower[k + j];
      assert !IsUpper(lower[k + j]);
    }
  }

  /** The two rules, in the order the handler tries them. */
  datatype Reason = AdsAndLinks | ForbiddenLanguage

  /** The reason string each rule puts in its notice: a sentence ending in a full stop. */
  function ReasonText(r: Reason): (t: string)
    ensures |t| > 1 && t[|t| - 1] == '.'
  {
    match r
    case AdsAndLinks => "Реклама и ссылки запрещены."
    case ForbiddenLanguage => "Использование запрещенной лексики/агрессия."
  }

  /** A notice's reason string tells the two rules apart. */
  lemma ReasonTextTellsRulesApart(a: Reason, b: Reason)
    ensures ReasonText(a) == ReasonText(b) <==> a == b
  {
    if a != b {
      assert ReasonText(a)[0] != ReasonText(b)[0];
    }
  }

  datatype Verdict = Clean | Violation(reason: Reason)

  /**
   * The checks of `moderation_handler` on the lower-cased text: the link check
   * first, then the word check; the first that fires decides the one reason.
   */
  function Classify(text: string, cache: seq<string>): (v: Verdict)
    ensures ContainsLink(ToLower(text)) ==> v == Violation(AdsAndLinks)
    ensures !ContainsLink(ToLower(text)) ==>
              (v == Violation(ForbiddenLanguage) <==> ContainsForbiddenWord(ToLower(text), cache))
    ensures v == Clean <==> !ContainsLink(ToLower(text)) && !ContainsForbiddenWord(ToLower(text), cache)
  {
    var lower := ToLower(text);
    if ContainsLink(lower) then Violation(AdsAndLinks)
    else if ContainsForbiddenWord(lower, cache) then Violation(ForbiddenLanguage)
    else Clean
  }

  /** Lower-casing twice is lower-casing once. */
  lemma ToLowerIdempotent(s: string)
    ensures ToLower(ToLower(s)) == ToLower(s)
  {
    var once := ToLower(s);
    assert forall i :: 0 <= i < |once| ==> ToLower(once)[i] == once[i];
  }

  /** Classification does not depend on letter case. */
  lemma ClassifyIgnoresCase(text: string, cache: seq<string>)
    ensures Classify(ToLower(text), cache) == Classify(text, cache)
  {
    ToLowerIdempotent(text);
  }

  /** A message that both links and swears is sanctioned once, for the link. */
  lemma LinkBeatsWord(text: string, cache: seq<string>)
    requires ContainsLink(ToLower(text)) && ContainsForbiddenWord(ToLower(text), cache)
    ensures Classify(text, cache) == Violation(AdsAndLinks)
  {
  }

  /**
   * The title of `/event`: every `/event` cut out of the text and the rest
   * stripped; there is no title when nothing but whitespace is left.
   */
  function EventTitle(text: string): (title: Option<string>)
    ensures title.None? <==> AllSpace(RemoveAll(text, "/event"))
    ensures title.Some? ==> title.value != [] && !IsSpace(title.value[0]) && !IsSpace(title.value[|title.value| - 1])
    ensures !IsSubstring("/event", text) ==> title == if AllSpace(text) then None else Some(Strip(text))
  {
    var rest := Strip(RemoveAll(text, "/event"));
    if rest == [] then None else Some(rest)
  }

  /**
   * The texts the handler sees start with the command: the title is what
   * follows it, stripped, when that holds no further `/event`.
   */
  lemma EventTitleOfCommand(s: string)
    requires !IsSubstring("/event", s)
    ensures EventTitle("/event" + s) == if AllSpace(s) then None else Some(Strip(s))
  {
    RemoveAllPrefix("/event", s);
  }

  lemma EventTitleExample()
    ensures EventTitle("/event Cinema") == Some("Cinema")
  {
    var s := "/event Cinema";
    assert s[..6] == "/event" && s[6..] == " Cinema";
    assert RemoveAll(" Cinema", "/event") == " Cinema" by {
      assert " Cinema"[..6] != "/event" && " Cinema"[1..] == "Cinema";
      assert "Cinema"[..6] != "/event" && "Cinema"[1..] == "inema";
      assert RemoveAll("inema", "/event") == "inema";
    }
    assert RemoveAll(s, "/event") == " Cinema";
    assert Strip(" Cinema") == "Cinema" by {
      assert SkipSpaceForward(" Cinema", 1) == 1;
      assert SkipSpaceForward(" Cinema", 0) == 1;
      assert SkipSpaceBackward(" Cinema", 1, 7) == 7;
    }
  }

  /** The command alone has no title. */
  lemma BareEventHasNoTitle()
    ensures EventTitle("/event") == None
  {
    assert "/event"[..6] == "/event" && "/event"[6..] == "";
  }

  /** The user an `/unwarn` command replies to, when the replied message has a sender. */
  function ReplyTarget(m: Message): Option<User> {
    match m.replyTo
    case None => None
    case Some(r) => r.sender
  }

  /** What the guards of `cmd_unwarn` decide, in the order they run. */
  datatype UnwarnGuard = NoReplyTarget | TargetIsAdmin | TargetIsBot | Proceed(target: User)

  /**
   * The guards of `cmd_unwarn`: no reply target first, then an administrator
   * target, then a bot target; `remove_warning` runs only past all three.
   */
  function CheckUnwarn(m: Message, admins: set<int>): (g: UnwarnGuard)
    ensures g == NoReplyTarget <==> ReplyTarget(m).None?
    ensures g == TargetIsAdmin <==> ReplyTarget(m).Some? && ReplyTarget(m).value.id in admins
    ensures g == TargetIsBot <==> ReplyTarget(m).Some? && ReplyTarget(m).value.id !in admins && ReplyTarget(m).value.isBot
    ensures g.Proceed? <==> ReplyTarget(m).Some? && ReplyTarget(m).value.id !in admins && !ReplyTarget(m).value.isBot
    ensures g.Proceed? ==> g.target == ReplyTarget(m).value
  {
    match ReplyTarget(m)
    case None => NoReplyTarget
    case Some(u) =>
      if u.id in admins then TargetIsAdmin
      else if u.isBot then TargetIsBot
      else Proceed(u)
  }
}

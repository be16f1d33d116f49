/**
 * The handler filters of filters.py. The administrator list comes from a
 * `get_admins` helper that config.py does not define, so it is a parameter:
 * the set of administrator ids.
 */
module Filters {
  import opened Wrappers
  import opened Telegram

  /** `IsAdmin`: the message has a sender and the sender's id is an administrator id. */
  predicate IsAdmin(m: Message, admins: set<int>)
    ensures IsAdmin(m, admins) ==> m.sender.Some?
  {
    match m.sender
    case None => false
    case Some(u) => u.id in admins
  }

  /** `IsGroupChat`: the chat is a group or a supergroup. */
  predicate IsGroupChat(m: Message) {
    m.chatType == "group" || m.chatType == "supergroup"
  }

  /** `IsPrivateChat`: the chat is the bot's private chat with the sender. */
  predicate IsPrivateChat(m: Message)
    ensures IsPrivateChat(m) ==> !IsGroupChat(m)
  {
    m.chatType == "private"
  }

  /**
   * `IsProtectedAdmin`: an administrator writing in a private chat. The source
   * reads the sender's id without checking that there is a sender, so on a
   * message without one the filter raises; that outcome is `None`.
   */
  function IsProtectedAdmin(m: Message, admins: set<int>): (r: Option<bool>)
    ensures r.None? <==> m.sender.None?
    ensures r == Some(true) ==> IsAdmin(m, admins) && IsPrivateChat(m) && !IsGroupChat(m)
    ensures m.sender.Some? && IsAdmin(m, admins) && IsPrivateChat(m) ==> r == Some(true)
  {
    match m.sender
    case None => None
    case Some(u) => Some(u.id in admins && m.chatType == "private")
  }
}

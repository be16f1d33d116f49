/**
 * The parts of a Telegram update the bot looks at. Chat types are kept as the
 * strings the platform sends ("private", "group", "supergroup", "channel").
 */
module Telegram {
  import opened Wrappers

  datatype User = User(id: int, isBot: bool, fullName: string, username: Option<string>)

  /** The message a command replies to; its sender may be absent (a channel post, for one). */
  datatype Reply = Reply(sender: Option<User>)

  datatype Message = Message(
    chatId: int,
    chatType: string,
    messageId: int,
    sender: Option<User>,
    text: Option<string>,
    replyTo: Option<Reply>,
    newMembers: seq<User>)
}

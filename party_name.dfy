/**
 * The party name chosen by the party command from its parsed arguments.
 *
 * Whether a string parses as a user id (`str::parse::<UserId>`) is decided
 * by the chat library and is a parameter here.
 */
module PartyName {

  const MaxNameChars: nat := 20

  /** `name.chars().take(20).collect()`: the first twenty characters. */
  function Truncate(s: string): (t: string)
    ensures t <= s
    ensures |t| == if |s| < MaxNameChars then |s| else MaxNameChars
  {
    if |s| <= MaxNameChars then s else s[..MaxNameChars]
  }

  /**
   * The `name` keyword argument wins, cut to twenty characters; else the
   * first positional argument, cut likewise, unless it parses as a user id;
   * otherwise the message id's decimal text.
   */
  function SelectName(kwargs: map<string, string>, args: seq<string>, parsesAsUser: string -> bool, messageId: string): (name: string)
    ensures "name" in kwargs ==> name <= kwargs["name"] && |name| == if |kwargs["name"]| < MaxNameChars then |kwargs["name"]| else MaxNameChars
    ensures "name" !in kwargs && |args| > 0 && !parsesAsUser(args[0]) ==>
              name <= args[0] && |name| == if |args[0]| < MaxNameChars then |args[0]| else MaxNameChars
    ensures "name" !in kwargs && (args == [] || parsesAsUser(args[0])) ==> name == messageId
  {
    if "name" in kwargs then Truncate(kwargs["name"])
    else if |args| > 0 then
      if parsesAsUser(args[0]) then messageId else Truncate(args[0])
    else messageId
  }

  /** A chosen name is at most twenty characters long, or is the message id. */
  lemma NameIsShortOrMessageId(kwargs: map<string, string>, args: seq<string>, parsesAsUser: string -> bool, messageId: string)
    ensures var name := SelectName(kwargs, args, parsesAsUser, messageId);
            |name| <= MaxNameChars || name == messageId
  {
  }
}

/** The exported chat data the core works on, as the chat exporter writes it and the other steps
    rewrite it: a channel file holds a list of messages, each with an author. Only the fields the
    core reads or writes are modelled. */
module Messages {
  import opened Strings

  /** `author.id` is kept as the exporter writes it, a decimal string; `assign_ids` replaces it by
      the string of a small character id for bot authors. */
  datatype Author = Author(id: string, name: string, isBot: bool)

  /** `msgType` is the exporter's `type` field ("Default", "Reply", ...). */
  datatype Message = Message(id: string, msgType: string, content: string, author: Author)

  /** One exported channel file. */
  datatype ChannelFile = ChannelFile(exportedAt: string, messageCount: int, messages: seq<Message>)

  /** The file-name filter every pass over the backup applies: a channel file ends in `.json` and
      is not one of the generated `..._scenes.json` / `scenes.json` files. */
  predicate IsChannelFileName(name: string) {
    EndsWith(name, ".json") && !EndsWith(name, "scenes.json")
  }
}

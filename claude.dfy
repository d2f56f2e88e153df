/**
 * The message shapes of the completion service's request body and the two
 * message constructors the conversation uses. The request envelope, usage
 * accounting and the network call itself are not part of this model.
 */
module Claude {
  import opened Wrappers

  const TypeText: string := "text"
  const CacheControlEphemeral: string := "ephemeral"

  const RoleUser: string := "user"
  const RoleSystem: string := "system"
  const RoleAssistant: string := "assistant"

  /** A cache-breakpoint hint attached to a content block. */
  datatype CacheControlBlock = CacheControlBlock(blockType: string)

  /** One content block; the text and the cache hint are optional (nil in the source). */
  datatype ContentBlock = ContentBlock(blockType: string, text: Option<string>, cacheControl: Option<CacheControlBlock>)

  /** One turn of the conversation. */
  datatype ClaudeMessage = ClaudeMessage(role: string, content: seq<ContentBlock>)

  /** The part of the service's reply that the engine reads: its content blocks. */
  datatype ClaudeMessageResponse = ClaudeMessageResponse(content: seq<ContentBlock>)

  /** Some block of the message carries a cache-control hint. */
  predicate CarriesCacheControl(m: ClaudeMessage) {
    exists i :: 0 <= i < |m.content| && m.content[i].cacheControl.Some?
  }

  /** The message is a single text block holding `t`. */
  predicate IsSingleText(m: ClaudeMessage, t: string) {
    |m.content| == 1 && m.content[0].blockType == TypeText && m.content[0].text == Some(t)
  }

  /** Every cache hint in the message is of the ephemeral kind. */
  predicate CacheHintsEphemeral(m: ClaudeMessage) {
    forall i :: 0 <= i < |m.content| && m.content[i].cacheControl.Some? ==>
      m.content[i].cacheControl.value.blockType == CacheControlEphemeral
  }

  /**
   * A user turn holding `text`; with `cachepoint` its block carries an
   * ephemeral cache-control hint.
   */
  function NewClaudeUserMessage(text: string, cachepoint: bool): (m: ClaudeMessage)
    ensures m.role == RoleUser
    ensures IsSingleText(m, text)
    ensures CarriesCacheControl(m) <==> cachepoint
    ensures CacheHintsEphemeral(m)
  {
    var block := ContentBlock(TypeText, Some(text), None);
    var block' := if cachepoint then block.(cacheControl := Some(CacheControlBlock(CacheControlEphemeral))) else block;
    ClaudeMessage(RoleUser, [block'])
  }

  /** An assistant turn holding `text`, never with a cache hint. */
  function NewClaudeAssistantMessage(text: string): (m: ClaudeMessage)
    ensures m.role == RoleAssistant
    ensures IsSingleText(m, text)
    ensures !CarriesCacheControl(m)
  {
    ClaudeMessage(RoleAssistant, [ContentBlock(TypeText, Some(text), None)])
  }
}

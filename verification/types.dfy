/** The records shared by the panels and the workspace. */
module Types {

  /** Who wrote a chat message. */
  datatype Role = User | Ai

  datatype ChatMessage = ChatMessage(role: Role, content: string)

  /**
   * A generated sprite. `name` and `description` both hold the prompt it was
   * generated from; `url` is the image as a data URI; `timestamp` is the
   * creation time in milliseconds.
   */
  datatype SpriteAsset = SpriteAsset(id: string, name: string, url: string, description: string, timestamp: int)

  /** The four `TabType` values, which are strings at run time. */
  const TabBrainstorm: string := "BRAINSTORM"
  const TabSpriteGen: string := "SPRITE_GEN"
  const TabDestinyWeaver: string := "DESTINY_WEAVER"
  const TabSettings: string := "SETTINGS"
}

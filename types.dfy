/** The records shared by the studio screen, the asset cards and the chat
    panel. */
module Types {

  datatype Option<+T> = None | Some(value: T)

  /** The three visual presets a batch can be generated in. */
  datatype ImageStyle = Rustic | Modern | Social

  /** The string value of each preset, as shown on the style buttons. */
  function StyleName(style: ImageStyle): (name: string) {
    match style
    case Rustic => "Rústico/Escuro"
    case Modern => "Claro/Moderno"
    case Social => "Social Media (Top View)"
  }

  datatype Status = Pending | Loading | Completed | Error

  /** One tracked generation job: a product name rendered in one style. */
  datatype Asset = Asset(
    id: string,
    name: string,
    status: Status,
    imageUrl: Option<string>,
    style: ImageStyle
  )

  datatype Role = User | Model

  /** A chat message; its creation time is not modelled. */
  datatype ChatMessage = ChatMessage(id: string, role: Role, text: string)

  /** What an awaited call to the generative service settles to: its text
      (an image data URL or a chat reply), or a rejection with some reason. */
  datatype Outcome = Succeeded(text: string) | Failed(reason: string)
}

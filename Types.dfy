/** The records and enumerations of types.ts, and the initial tree
    configuration of constants.tsx. */
module Types {

  /** Who wrote a turn of the transcript. */
  datatype Role = User | Assistant

  /** One turn of the visible chat transcript. */
  datatype ChatMessage = ChatMessage(role: Role, content: string)

  /** The two arrangements of the tree: assembled or scattered. */
  datatype MorphStatus = Scattered | TreeShape

  /** The tuning parameters handed to the renderer. The two numeric
      intensities are JavaScript numbers; they are modelled as reals. */
  datatype TreeConfig = TreeConfig(
    lightIntensity: real,
    rotationSpeed: real,
    glowColor: string,
    ornamentDensity: int)

  /** The configuration a session starts with. */
  const INITIAL_CONFIG: TreeConfig := TreeConfig(1.5, 0.2, "#D4AF37", 80)
}

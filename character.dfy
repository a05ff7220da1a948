/** A registered character and its highlight colour. */
module Characters {

  /** An 8-bit channel. */
  type Byte = x: int | 0 <= x < 256

  datatype Color = Color(r: Byte, g: Byte, b: Byte, a: Byte)

  /** A value-initialised colour: opaque black. */
  function DefaultColor(): (c: Color)
    ensures c.r == 0 && c.g == 0 && c.b == 0 && c.a == 255
  {
    Color(0, 0, 0, 255)
  }

  /** The colour a registry header without a colour block gets. */
  const White: Color := Color(255, 255, 255, 255)

  datatype Character = Character(name: string, notes: string, color: Color)

  /** A value-initialised character: no name, no notes, opaque red (which
      overrides the colour's own default). */
  function DefaultCharacter(): (c: Character)
    ensures c.name == [] && c.notes == []
    ensures c.color == Color(255, 0, 0, 255) && c.color != DefaultColor()
  {
    Character("", "", Color(255, 0, 0, 255))
  }
}

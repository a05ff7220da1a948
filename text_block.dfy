/** The block of screenplay text every other part of the model passes around. */
module TextBlocks {

  /** The kind of a block; the source's enumeration gives `Unassigned` the
      value -1 and numbers the others from 0. */
  datatype BlockType = Unassigned | Slug | Action | Parenthetical | Dialogue | Note

  /** The integer value the enumeration gives each kind. */
  function TypeCode(t: BlockType): (c: int)
    ensures -1 <= c <= 4
    ensures c == -1 <==> t == Unassigned
  {
    match t
    case Unassigned => -1
    case Slug => 0
    case Action => 1
    case Parenthetical => 2
    case Dialogue => 3
    case Note => 4
  }

  /** One block: its kind, the speaker (for parentheticals and dialogue), the
      trimmed text and the scene number (for slugs). */
  datatype TextBlock = TextBlock(kind: BlockType, character: string, content: string, slugCount: nat)

  /** A value-initialised block. */
  function DefaultBlock(): (b: TextBlock)
    ensures b.kind == Unassigned && b.character == [] && b.content == [] && b.slugCount == 1
  {
    TextBlock(Unassigned, "", "", 1)
  }

  /** A block as the scene parser creates it: only kind, speaker and text are
      set, the scene number keeps its default. */
  function NewBlock(kind: BlockType, character: string, content: string): (b: TextBlock)
    ensures b == DefaultBlock().(kind := kind, character := character, content := content)
  {
    TextBlock(kind, character, content, 1)
  }

  /** Kinds that name a speaker. */
  predicate IsSpoken(t: BlockType)
  {
    t == Parenthetical || t == Dialogue
  }
}

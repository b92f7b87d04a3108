/**
 The names of notes and keys by their place on the line of fifths: every step to the right
 is a fifth up, and adds one sharp to the key signature.
 */
module NoteNames {
  import opened Bytes

  /** F C G D A E B, counted from C. */
  function Letter(ch: char): Option<int> {
    match ch
    case 'F' => Some(-1)
    case 'C' => Some(0)
    case 'G' => Some(1)
    case 'D' => Some(2)
    case 'A' => Some(3)
    case 'E' => Some(4)
    case 'B' => Some(5)
    case _ => None
  }

  /** A sharp is seven fifths up, a flat seven fifths down. */
  function Fifths(name: string): Option<int> {
    if name == [] || |name| > 2 then None
    else
      match Letter(name[0])
      case None => None
      case Some(f) =>
        if |name| == 1 then Some(f)
        else if name[1] == '#' then Some(f + 7)
        else if name[1] == 'b' then Some(f - 7)
        else None
  }

  /** The place on the line, if it lies within bounds, and that of C otherwise. */
  function Place(name: string, lo: int, hi: int): int {
    match Fifths(name)
    case Some(f) => if lo <= f <= hi then f else 0
    case None => 0
  }

  /** Names are at most two characters that matter. */
  lemma Spelled(name: string)
    ensures |name| == 1 ==> name == [name[0]]
    ensures |name| == 2 ==> name == [name[0], name[1]]
  {
  }
}

/**
 * The character-to-key table that the key handlers of `Cpu` apply to a
 * terminal key press: the left block of a QWERTY keyboard stands for the
 * 4x4 CHIP-8 keypad. The table sends both 'f' and 'v' to key 0xF, and no
 * character to key 0xE.
 */
module Keys {
  import opened Machine

  function KeyOfChar(ch: char): (k: Option<Byte>)
    ensures k.Some? ==> k.value < 0x10 && k.value != 0xE
  {
    match ch
    case '1' => Some(1)
    case '2' => Some(2)
    case '3' => Some(3)
    case '4' => Some(0xC)
    case 'q' => Some(4)
    case 'w' => Some(5)
    case 'e' => Some(6)
    case 'r' => Some(0xD)
    case 'a' => Some(7)
    case 's' => Some(8)
    case 'd' => Some(9)
    case 'f' => Some(0xF)
    case 'z' => Some(0xA)
    case 'x' => Some(0)
    case 'c' => Some(0xB)
    case 'v' => Some(0xF)
    case _ => None
  }

  /** The sixteen mapped characters. */
  const MAPPED: set<char> := {'1', '2', '3', '4', 'q', 'w', 'e', 'r', 'a', 's', 'd', 'f', 'z', 'x', 'c', 'v'}

  /** Exactly the sixteen characters of the table produce a key. */
  lemma MappedCharacters(ch: char)
    ensures KeyOfChar(ch).Some? <==> ch in MAPPED
  {
  }

  /** Every key but 0xE is reachable, and 0xF from two characters. */
  lemma KeyCoverage(k: Byte)
    requires k < 0x10 && k != 0xE
    ensures exists ch :: KeyOfChar(ch) == Some(k)
    ensures KeyOfChar('f') == KeyOfChar('v') == Some(0xF)
  {
    var chars := ['x', '1', '2', '3', 'q', 'w', 'e', 'a', 's', 'd', 'z', 'c', '4', 'r', 'v', 'f'];
    assert KeyOfChar(chars[k]) == Some(k);
  }
}

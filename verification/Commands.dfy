/** Integer widths and the command names shared by client and server. */
module Commands {

  /** std::uint32_t, the width of client and request identifiers. */
  type Word = x: int | 0 <= x < 0x1_0000_0000

  const INVALID_CLIENT: Word := 0

  datatype CommandType = List | Status | Reserve | Cancel | Quit | Unknown

  function ToString(c: CommandType): string {
    match c
    case List => "LIST"
    case Status => "STATUS"
    case Reserve => "RESERVE"
    case Cancel => "CANCEL"
    case Quit => "QUIT"
    case Unknown => "UNKNOWN"
  }

  function ParseCommandType(name: string): CommandType {
    if name == "LIST" then List
    else if name == "STATUS" then Status
    else if name == "RESERVE" then Reserve
    else if name == "CANCEL" then Cancel
    else if name == "QUIT" then Quit
    else Unknown
  }

  /** The commands that name a seat. */
  predicate NamesSeat(c: CommandType) {
    c == Status || c == Reserve || c == Cancel
  }

  /** The spellings, and that ToString and ParseCommandType are inverse in both directions: every command survives the
      round trip, and a name that parses to a real command is that command's only spelling. */
  lemma CommandRoundTrip(c: CommandType, name: string)
    ensures name == "LIST" ==> ParseCommandType(name) == List
    ensures name == "STATUS" ==> ParseCommandType(name) == Status
    ensures name == "RESERVE" ==> ParseCommandType(name) == Reserve
    ensures name == "CANCEL" ==> ParseCommandType(name) == Cancel
    ensures name == "QUIT" ==> ParseCommandType(name) == Quit
    ensures ParseCommandType(ToString(c)) == c
    ensures ParseCommandType(name) != Unknown ==> ToString(ParseCommandType(name)) == name
    ensures ParseCommandType(name) == Unknown <==> forall d: CommandType | d != Unknown :: ToString(d) != name
  {
    assert "LIST"[0] == 'L' && "STATUS"[0] == 'S' && "RESERVE"[0] == 'R' && "CANCEL"[0] == 'C';
    assert "QUIT"[0] == 'Q' && "UNKNOWN"[0] == 'U';
    if ParseCommandType(name) != Unknown {
      assert ToString(ParseCommandType(name)) == name;
    }
  }
}

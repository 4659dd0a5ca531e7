/** CommandParser::parse_line (src/client/command_parser.cpp). */
module Parser {
  import opened Wrappers
  import opened Commands
  import opened Sanitizer

  datatype ParsedCommand = ParsedCommand(command: CommandType, seat: string, isHelp: bool, isClear: bool)

  /** std::toupper in the C locale. */
  function UpperChar(c: char): char {
    if 'a' <= c <= 'z' then c - 'a' + 'A' else c
  }

  function Upper(s: string): (r: string)
    ensures |r| == |s|
  {
    seq(|s|, i requires 0 <= i < |s| => UpperChar(s[i]))
  }

  /** The end of the run of non-spaces from i on. */
  function WordEnd(s: string, i: nat): (j: nat)
    requires i <= |s|
    ensures i <= j <= |s|
    decreases |s| - i
  {
    if i < |s| && !IsSpace(s[i]) then WordEnd(s, i + 1) else i
  }

  function SpaceEnd(s: string, i: nat): (j: nat)
    requires i <= |s|
    ensures i <= j <= |s|
    decreases |s| - i
  {
    if i < |s| && IsSpace(s[i]) then SpaceEnd(s, i + 1) else i
  }

  /** operator>> into a std::string: skip white space, take characters up to the next; an empty word is a
      failed extraction. */
  method ReadWord(s: string, start: nat) returns (word: string, pos: nat)
    requires start <= |s|
    ensures pos == WordEnd(s, SpaceEnd(s, start)) && word == s[SpaceEnd(s, start)..pos]
  {
    pos := start;
    while pos < |s| && IsSpace(s[pos])
      invariant start <= pos <= |s| && SpaceEnd(s, pos) == SpaceEnd(s, start)
    {
      pos := pos + 1;
    }
    ghost var first := pos;
    word := "";
    while pos < |s| && !IsSpace(s[pos])
      invariant first <= pos <= |s| && WordEnd(s, pos) == WordEnd(s, first) && word == s[first..pos]
    {
      word := word + [s[pos]];
      pos := pos + 1;
    }
  }

  /** The loop that upper-cases a word in place. */
  method ToUpper(s: string) returns (r: string)
    ensures r == Upper(s)
  {
    r := s;
    for i := 0 to |r|
      invariant |r| == |s|
      invariant forall k | 0 <= k < i :: r[k] == UpperChar(s[k])
      invariant forall k | i <= k < |s| :: r[k] == s[k]
    {
      r := r[i := UpperChar(r[i])];
    }
  }

  /** The short forms of the seat commands and of LIST. */
  function Unabbreviated(verb: string): string {
    if verb == "1" || verb == "L" then "LIST"
    else if verb == "2" || verb == "R" then "RESERVE"
    else if verb == "3" || verb == "S" then "STATUS"
    else if verb == "4" || verb == "C" then "CANCEL"
    else verb
  }

  function Word1(s: string): string {
    s[SpaceEnd(s, 0)..WordEnd(s, SpaceEnd(s, 0))]
  }

  function Word2(s: string): string {
    var i := SpaceEnd(s, WordEnd(s, SpaceEnd(s, 0)));
    s[i..WordEnd(s, i)]
  }

  /** The command a line's first two words mean. */
  function Meaning(verb: string, seat: string): Option<ParsedCommand> {
    if verb in {"HELP", "?", "H", "5"} then Some(ParsedCommand(Unknown, "", true, false))
    else if verb in {"CLEAR", "CLS", "REFRESH", "7"} then Some(ParsedCommand(Unknown, "", false, true))
    else if verb in {"EXIT", "QUIT", "Q", "6"} then Some(ParsedCommand(Quit, "", false, false))
    else
      var c := ParseCommandType(Unabbreviated(verb));
      if c == Unknown || (NamesSeat(c) && seat == "") then None
      else Some(ParsedCommand(c, if NamesSeat(c) then Upper(seat) else "", false, false))
  }

  function Parsed(line: string): Option<ParsedCommand> {
    var s := Sanitized(line);
    if Word1(s) == "" then None else Meaning(Upper(Word1(s)), Word2(s))
  }

  method ParseLine(inputLine: string) returns (r: Option<ParsedCommand>)
    ensures r == Parsed(inputLine)
  {
    var s := SanitizeInput(inputLine);
    if s == "" {
      return None;
    }
    var verb, pos := ReadWord(s, 0);
    if verb == "" {
      return None;
    }
    verb := ToUpper(verb);
    if verb == "HELP" || verb == "?" || verb == "H" || verb == "5" {
      return Some(ParsedCommand(Unknown, "", true, false));
    }
    if verb == "CLEAR" || verb == "CLS" || verb == "REFRESH" || verb == "7" {
      return Some(ParsedCommand(Unknown, "", false, true));
    }
    if verb == "EXIT" || verb == "QUIT" || verb == "Q" || verb == "6" {
      return Some(ParsedCommand(Quit, "", false, false));
    }
    if verb == "1" || verb == "L" {
      verb := "LIST";
    } else if verb == "2" || verb == "R" {
      verb := "RESERVE";
    } else if verb == "3" || verb == "S" {
      verb := "STATUS";
    } else if verb == "4" || verb == "C" {
      verb := "CANCEL";
    }
    var command := ParseCommandType(verb);
    if command == Unknown {
      return None;
    }
    var seat := "";
    if command == Status || command == Reserve || command == Cancel {
      seat, pos := ReadWord(s, pos);
      if seat == "" {
        return None;
      }
      seat := ToUpper(seat);
    }
    return Some(ParsedCommand(command, seat, false, false));
  }

  /** The REPL sanitizes a line before parsing it, and parsing sanitizes again: no difference. */
  lemma ParseAfterSanitize(line: string)
    ensures Parsed(Sanitized(line)) == Parsed(line)
  {
    SanitizeProjects(line);
  }

  // What is understood, said about the characters typed.

  /** White space is the six characters of the C locale. */
  lemma WhiteSpace(c: char)
    ensures IsSpace(c) <==> c in [' ', '\t', '\n', '\U{0B}', '\U{0C}', '\r']
  {
  }

  /** A character typed for one of a command name: the same, or the small letter of a capital one. */
  predicate Types(typed: char, meant: char) {
    typed == meant || ('A' <= meant <= 'Z' && typed as int == meant as int + 32)
  }

  predicate Spells(word: string, name: string) {
    |word| == |name| && forall i | 0 <= i < |word| :: Types(word[i], name[i])
  }

  /** The seat as the command carries it: small letters capitalised, everything else as typed. */
  predicate Capitalised(typed: string, seat: string) {
    |typed| == |seat| && forall i | 0 <= i < |typed| ::
      if 'a' <= typed[i] <= 'z' then seat[i] as int == typed[i] as int - 32 else seat[i] == typed[i]
  }

  /** The words for a seat command: its name, its initial, its digit in the menu. */
  predicate Asks(word: string, c: CommandType) {
    || (c == Reserve && (Spells(word, "RESERVE") || Spells(word, "R") || word == "2"))
    || (c == Status && (Spells(word, "STATUS") || Spells(word, "S") || word == "3"))
    || (c == Cancel && (Spells(word, "CANCEL") || Spells(word, "C") || word == "4"))
  }

  predicate AsksList(word: string) {
    Spells(word, "LIST") || Spells(word, "L") || word == "1"
  }

  predicate AsksQuit(word: string) {
    Spells(word, "EXIT") || Spells(word, "QUIT") || Spells(word, "Q") || word == "6"
  }

  predicate AsksHelp(word: string) {
    Spells(word, "HELP") || word == "?" || Spells(word, "H") || word == "5"
  }

  predicate AsksClear(word: string) {
    Spells(word, "CLEAR") || Spells(word, "CLS") || Spells(word, "REFRESH") || word == "7"
  }

  predicate Is(p: Option<ParsedCommand>, c: CommandType) {
    p.Some? && p.value.command == c
  }

  /** What the first two words of a line are taken for; second is empty if there is no second word. */
  predicate Understood(first: string, second: string, p: Option<ParsedCommand>) {
    && (Is(p, Reserve) <==> Asks(first, Reserve) && second != "")
    && (Is(p, Status) <==> Asks(first, Status) && second != "")
    && (Is(p, Cancel) <==> Asks(first, Cancel) && second != "")
    && (Is(p, List) <==> AsksList(first))
    && (Is(p, Quit) <==> AsksQuit(first))
    && (Is(p, Unknown) <==> AsksHelp(first) || AsksClear(first))
    && (p.Some? && p.value.isHelp <==> AsksHelp(first))
    && (p.Some? && p.value.isClear <==> AsksClear(first))
    && (Is(p, Reserve) || Is(p, Status) || Is(p, Cancel) ==> Capitalised(second, p.value.seat))
    && (Is(p, List) || Is(p, Quit) || Is(p, Unknown) ==> p.value.seat == "")
  }

  lemma UpperSpells(word: string, name: string)
    requires forall i | 0 <= i < |name| :: !('a' <= name[i] <= 'z')
    ensures Upper(word) == name <==> Spells(word, name)
  {
    if Spells(word, name) {
      assert forall i | 0 <= i < |word| :: Upper(word)[i] == name[i];
    }
    if Upper(word) == name {
      forall i | 0 <= i < |word| ensures Types(word[i], name[i]) {
        assert Upper(word)[i] == UpperChar(word[i]);
      }
    }
  }

  /** A word of one character that is not a letter has one spelling. */
  lemma UpperSign(word: string, c: char)
    requires !('a' <= c <= 'z') && !('A' <= c <= 'Z')
    ensures Upper(word) == [c] <==> word == [c]
  {
    UpperSpells(word, [c]);
  }

  lemma SeatWords(word: string)
    ensures Asks(word, Reserve) <==> Unabbreviated(Upper(word)) == "RESERVE"
    ensures Asks(word, Status) <==> Unabbreviated(Upper(word)) == "STATUS"
    ensures Asks(word, Cancel) <==> Unabbreviated(Upper(word)) == "CANCEL"
    ensures AsksList(word) <==> Unabbreviated(Upper(word)) == "LIST"
  {
    UpperSpells(word, "RESERVE"); UpperSpells(word, "R"); UpperSign(word, '2');
    UpperSpells(word, "STATUS"); UpperSpells(word, "S"); UpperSign(word, '3');
    UpperSpells(word, "CANCEL"); UpperSpells(word, "C"); UpperSign(word, '4');
    UpperSpells(word, "LIST"); UpperSpells(word, "L"); UpperSign(word, '1');
  }

  lemma OtherWords(word: string)
    ensures AsksQuit(word) <==> Upper(word) in {"EXIT", "QUIT", "Q", "6"}
    ensures AsksHelp(word) <==> Upper(word) in {"HELP", "?", "H", "5"}
    ensures AsksClear(word) <==> Upper(word) in {"CLEAR", "CLS", "REFRESH", "7"}
  {
    UpperSpells(word, "EXIT"); UpperSpells(word, "QUIT"); UpperSpells(word, "Q"); UpperSign(word, '6');
    UpperSpells(word, "HELP"); UpperSign(word, '?'); UpperSpells(word, "H"); UpperSign(word, '5');
    UpperSpells(word, "CLEAR"); UpperSpells(word, "CLS"); UpperSpells(word, "REFRESH"); UpperSign(word, '7');
  }

  /** The words for different things are different. */
  lemma Distinct(verb: string)
    ensures verb in {"HELP", "?", "H", "5"} ==> verb !in {"CLEAR", "CLS", "REFRESH", "7"} && verb !in {"EXIT", "QUIT", "Q", "6"}
    ensures verb in {"CLEAR", "CLS", "REFRESH", "7"} ==> verb !in {"EXIT", "QUIT", "Q", "6"}
    ensures verb in {"HELP", "?", "H", "5", "CLEAR", "CLS", "REFRESH", "7", "EXIT", "QUIT", "Q", "6"} ==>
              Unabbreviated(verb) !in {"LIST", "RESERVE", "STATUS", "CANCEL"}
  {
  }

  lemma SeatCapitalised(typed: string)
    ensures Capitalised(typed, Upper(typed))
  {
  }

  lemma MeaningUnderstood(first: string, second: string)
    ensures Understood(first, second, Meaning(Upper(first), second))
  {
    SeatWords(first);
    OtherWords(first);
    Distinct(Upper(first));
    SeatCapitalised(second);
  }

  /** The first two words of s lie at i..j and k..l; a word is missing only at the end. */
  ghost predicate FirstTwo(s: string, i: nat, j: nat, k: nat, l: nat) {
    && i <= j <= k <= l <= |s|
    && (forall n | 0 <= n < i || j <= n < k :: IsSpace(s[n])) && (forall n | i <= n < j || k <= n < l :: !IsSpace(s[n]))
    && (j < |s| ==> IsSpace(s[j])) && (l < |s| ==> IsSpace(s[l])) && (i < |s| ==> i < j) && (k < |s| ==> k < l)
  }

  lemma FindsTwo(s: string, i: nat, j: nat, k: nat, l: nat)
    requires FirstTwo(s, i, j, k, l)
    ensures Word1(s) == s[i..j] && Word2(s) == s[k..l]
  {
    SpaceEndAt(s, 0, i);
    WordEndAt(s, i, j);
    SpaceEndAt(s, j, k);
    WordEndAt(s, k, l);
  }

  lemma {:induction false} SpaceEndStops(s: string, i: nat)
    requires i <= |s|
    ensures forall n | i <= n < SpaceEnd(s, i) :: IsSpace(s[n])
    ensures SpaceEnd(s, i) < |s| ==> !IsSpace(s[SpaceEnd(s, i)])
    decreases |s| - i
  {
    if i < |s| && IsSpace(s[i]) {
      SpaceEndStops(s, i + 1);
    }
  }

  lemma {:induction false} WordEndStops(s: string, i: nat)
    requires i <= |s|
    ensures forall n | i <= n < WordEnd(s, i) :: !IsSpace(s[n])
    ensures WordEnd(s, i) < |s| ==> IsSpace(s[WordEnd(s, i)])
    decreases |s| - i
  {
    if i < |s| && !IsSpace(s[i]) {
      WordEndStops(s, i + 1);
    }
  }

  /** Every line has its first two words somewhere, if only at its end. */
  lemma TwoWordsThere(s: string) returns (i: nat, j: nat, k: nat, l: nat)
    ensures FirstTwo(s, i, j, k, l)
  {
    i := SpaceEnd(s, 0);
    SpaceEndStops(s, 0);
    j := WordEnd(s, i);
    WordEndStops(s, i);
    k := SpaceEnd(s, j);
    SpaceEndStops(s, j);
    l := WordEnd(s, k);
    WordEndStops(s, k);
  }

  /** A line is understood by its first two words alone, in any letter case: RESERVE, STATUS and CANCEL by name, initial
      or digit, with a second word for the seat; LIST, QUIT, help and clear by their words, without any seat; and
      nothing else is understood. */
  lemma LineUnderstood(line: string, i: nat, j: nat, k: nat, l: nat)
    requires FirstTwo(Sanitized(line), i, j, k, l)
    ensures Understood(Sanitized(line)[i..j], Sanitized(line)[k..l], Parsed(line))
  {
    FindsTwo(Sanitized(line), i, j, k, l);
    MeaningUnderstood(Word1(Sanitized(line)), Word2(Sanitized(line)));
  }

  // Printing a command and parsing it back.

  predicate AllSpace(s: string) {
    forall i | 0 <= i < |s| :: IsSpace(s[i])
  }

  predicate NoSpace(s: string) {
    forall i | 0 <= i < |s| :: !IsSpace(s[i])
  }

  function DropCr(s: string): string {
    if s == "" then "" else (if s[0] == CR then "" else [s[0]]) + DropCr(s[1..])
  }

  /** Without escapes, stripping only drops carriage returns. */
  lemma {:induction false} StripIsDropCr(s: string, i: nat)
    requires i <= |s| && ESC !in s
    ensures Strip(s, i) == DropCr(s[i..])
    decreases |s| - i
  {
    if i < |s| {
      assert s[i..][1..] == s[i + 1..];
      StripIsDropCr(s, i + 1);
    }
  }

  lemma {:induction false} DropCrAppend(a: string, b: string)
    ensures DropCr(a + b) == DropCr(a) + DropCr(b)
  {
    if a == "" {
      assert a + b == b;
    } else {
      assert (a + b)[0] == a[0] && (a + b)[1..] == a[1..] + b;
      DropCrAppend(a[1..], b);
    }
  }

  /** White space stays white space, and becomes empty exactly when it is carriage returns only. */
  lemma {:induction false} DropCrOfSpace(s: string)
    requires AllSpace(s)
    ensures AllSpace(DropCr(s))
    ensures DropCr(s) == "" <==> forall c | c in s :: c == CR
  {
    if s != "" {
      DropCrOfSpace(s[1..]);
      assert s == [s[0]] + s[1..];
      if forall c | c in s :: c == CR {
        assert s[0] in s;
        forall c | c in s[1..] ensures c == CR {
          assert c in s;
        }
      }
    }
  }

  lemma {:induction false} DropCrOfWord(s: string)
    requires NoSpace(s)
    ensures DropCr(s) == s
  {
    if s != "" {
      DropCrOfWord(s[1..]);
    }
  }

  lemma {:induction false} TrimSpaces(a: string, s: string, b: string)
    requires AllSpace(a) && AllSpace(b) && Trimmed(s) && s != ""
    ensures TrimRight(TrimLeft(a + s + b)) == s
    decreases |a| + |b|
  {
    var t := a + s + b;
    if a != "" {
      assert t[0] == a[0] && t[1..] == a[1..] + s + b;
      TrimSpaces(a[1..], s, b);
    } else if b != "" {
      assert t == s + b && TrimLeft(t) == t;
      assert t[|t| - 1] == b[|b| - 1] && t[..|t| - 1] == a + s + b[..|b| - 1];
      TrimSpaces(a, s, b[..|b| - 1]);
      assert TrimLeft(a + s + b[..|b| - 1]) == a + s + b[..|b| - 1];
    } else {
      assert t == s;
    }
  }

  lemma {:induction false} WordEndAt(s: string, i: nat, n: nat)
    requires i <= n <= |s| && (forall k | i <= k < n :: !IsSpace(s[k])) && (n < |s| ==> IsSpace(s[n]))
    ensures WordEnd(s, i) == n
    decreases n - i
  {
    if i < n {
      WordEndAt(s, i + 1, n);
    }
  }

  lemma {:induction false} SpaceEndAt(s: string, i: nat, n: nat)
    requires i <= n <= |s| && (forall k | i <= k < n :: IsSpace(s[k])) && (n < |s| ==> !IsSpace(s[n]))
    ensures SpaceEnd(s, i) == n
    decreases n - i
  {
    if i < n {
      SpaceEndAt(s, i + 1, n);
    }
  }

  lemma LineDropCr(pad1: string, verb: string, sep: string, seat: string, pad2: string)
    requires NoSpace(verb) && NoSpace(seat)
    ensures DropCr(pad1 + verb + sep + seat + pad2) == DropCr(pad1) + verb + DropCr(sep) + seat + DropCr(pad2)
  {
    DropCrAppend(pad1 + verb + sep + seat, pad2);
    DropCrAppend(pad1 + verb + sep, seat);
    DropCrAppend(pad1 + verb, sep);
    DropCrAppend(pad1, verb);
    DropCrOfWord(verb);
    DropCrOfWord(seat);
  }

  lemma TrimLine(a: string, verb: string, gap: string, seat: string, b: string)
    requires AllSpace(a) && AllSpace(b) && NoSpace(verb) && NoSpace(seat) && verb != "" && seat != ""
    ensures TrimRight(TrimLeft(a + verb + gap + seat + b)) == verb + gap + seat
  {
    var core := verb + gap + seat;
    assert a + verb + gap + seat + b == a + core + b;
    assert core[0] == verb[0] && core[|core| - 1] == seat[|seat| - 1];
    TrimSpaces(a, core, b);
  }

  /** What sanitizing leaves of a padded command line. */
  lemma SanitizedLine(pad1: string, verb: string, sep: string, seat: string, pad2: string)
    requires AllSpace(pad1) && AllSpace(sep) && AllSpace(pad2) && NoSpace(verb) && NoSpace(seat)
    requires verb != "" && seat != "" && ESC !in verb && ESC !in seat
    ensures Sanitized(pad1 + verb + sep + seat + pad2) == verb + DropCr(sep) + seat
  {
    var line := pad1 + verb + sep + seat + pad2;
    assert ESC !in line by {
      assert ESC !in pad1 && ESC !in sep && ESC !in pad2;
    }
    StripIsDropCr(line, 0);
    assert line[0..] == line;
    LineDropCr(pad1, verb, sep, seat, pad2);
    DropCrOfSpace(pad1);
    DropCrOfSpace(pad2);
    TrimLine(DropCr(pad1), verb, DropCr(sep), seat, DropCr(pad2));
  }

  /** The words of "verb gap seat". */
  lemma WordsOf(verb: string, gap: string, seat: string)
    requires NoSpace(verb) && NoSpace(seat) && AllSpace(gap) && verb != "" && seat != ""
    ensures var s := verb + gap + seat;
            if gap == "" then Word1(s) == verb + seat && Word2(s) == "" else Word1(s) == verb && Word2(s) == seat
  {
    var s := verb + gap + seat;
    SpaceEndAt(s, 0, 0);
    if gap == "" {
      assert s == verb + seat;
      WordEndAt(s, 0, |s|);
      SpaceEndAt(s, |s|, |s|);
    } else {
      WordEndAt(s, 0, |verb|);
      SpaceEndAt(s, |verb|, |verb| + |gap|);
      WordEndAt(s, |verb| + |gap|, |s|);
    }
  }

  /** The words of seat commands are made of letters and digits. */
  lemma VerbVisible(c: CommandType, verb: string)
    requires Asks(verb, c)
    ensures verb != "" && NoSpace(verb) && ESC !in verb
  {
    assert forall i | 0 <= i < |verb| :: '0' <= verb[i] <= '9' || 'A' <= verb[i] <= 'Z' || 'a' <= verb[i] <= 'z';
  }

  /** A word for a seat command with more characters behind it is no word for anything else, except that C and R can
      begin the words for clear. */
  lemma NothingExtends(c: CommandType, verb: string, rest: string)
    requires Asks(verb, c) && rest != ""
    ensures !AsksList(verb + rest) && !AsksQuit(verb + rest) && !AsksHelp(verb + rest)
  {
    assert (verb + rest)[0] == verb[0] && |verb + rest| >= 2;
  }

  /** Parsing inverts printing: a seat command by its name, initial or digit in any letter case, padded and separated by
      white space, with a seat of visible characters, parses back to the command and the capitalised seat, if
      and only if the separator is not made of carriage returns only. These are dropped, and the words run
      together: into a word for clear, or into nothing that is understood. */
  lemma ParserInvertsPrinter(c: CommandType, pad1: string, verb: string, sep: string, seat: string, pad2: string)
    requires Asks(verb, c) && NoSpace(seat) && seat != "" && ESC !in seat
    requires AllSpace(pad1) && AllSpace(sep) && AllSpace(pad2)
    ensures var p := Parsed(pad1 + verb + sep + seat + pad2);
            if exists x :: x in sep && x != CR then
              Is(p, c) && Capitalised(seat, p.value.seat) && !p.value.isHelp && !p.value.isClear
            else if AsksClear(verb + seat) then p == Some(ParsedCommand(Unknown, "", false, true))
            else p == None
  {
    VerbVisible(c, verb);
    SanitizedLine(pad1, verb, sep, seat, pad2);
    DropCrOfSpace(sep);
    WordsOf(verb, DropCr(sep), seat);
    if DropCr(sep) == "" {
      NothingExtends(c, verb, seat);
      MeaningUnderstood(verb + seat, "");
    } else {
      MeaningUnderstood(verb, seat);
    }
  }
}

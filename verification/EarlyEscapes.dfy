/** When the string read early is the string JSON means (section 7 of RFC 8259). */
module EarlyEscapes {
  import opened Text
  import opened EarlyField

  /** The character a two-character escape stands for in JSON, `None` for one it does not know. */
  function RfcEscape(c: char): Option<char> {
    match c
    case '"' => Some('"')
    case '\\' => Some('\\')
    case '/' => Some('/')
    case 'b' => Some('\U{0008}')
    case 'f' => Some('\U{000C}')
    case 'n' => Some('\n')
    case 'r' => Some('\r')
    case 't' => Some('\t')
    case _ => None
  }

  /** Control characters must not stand in a JSON string as they are. */
  function RfcPiece(p: Piece): Option<char> {
    match p
    case Plain(c) => if c < ' ' then None else Some(c)
    case Escape(c) => RfcEscape(c)
  }

  /** What the written string means in JSON, if it is JSON. */
  function RfcMeaning(pieces: seq<Piece>): Option<string> {
    if pieces == [] then Some([])
    else match (RfcPiece(pieces[0]), RfcMeaning(pieces[1..]))
      case (Some(c), Some(more)) => Some([c] + more)
      case _ => None
  }

  /** Not a raw control character, nor `\b`, `\f` or an escape that JSON does not know. */
  predicate Common(p: Piece) {
    match p
    case Plain(c) => c >= ' '
    case Escape(c) => c in "\"\\/nrt"
  }

  lemma CommonPiece(p: Piece)
    requires p.Fits()
    ensures Common(p) <==> RfcPiece(p) == Some(match p case Plain(c) => c case Escape(c) => Unescaped(c))
  {
  }

  /** The crate's reading is JSON's if and only if every piece is one that both know alike. */
  lemma {:induction false} ReadsAsJson(pieces: seq<Piece>)
    requires AllFit(pieces)
    ensures RfcMeaning(pieces) == Some(Meaning(pieces)) <==> forall i :: 0 <= i < |pieces| ==> Common(pieces[i])
  {
    if pieces != [] {
      CommonPiece(pieces[0]);
      ReadsAsJson(pieces[1..]);
      hide Common, RfcPiece, Unescaped;
      var c, more := RfcPiece(pieces[0]), RfcMeaning(pieces[1..]);
      if c.Some? && more.Some? {
        assert ([c.value] + more.value)[1..] == more.value && Meaning(pieces)[1..] == Meaning(pieces[1..]);
      }
      assert pieces == [pieces[0]] + pieces[1..];
    }
  }

  /** A field that was read had been written in some pieces, and is what JSON means by them
      exactly if they are all common. */
  lemma FieldIsJson(buf: string, field: string) returns (pieces: seq<Piece>, tail: string)
    requires Field(buf, field).Some?
    ensures AllFit(pieces) && buf[Opening(buf, field).value..] == Written(pieces) + "\"" + tail
    ensures RfcMeaning(pieces) == Field(buf, field) <==> forall i :: 0 <= i < |pieces| ==> Common(pieces[i])
  {
    hide Opening, Common;
    pieces, tail := ScannedIsWritten(buf[Opening(buf, field).value..]);
    ReadsAsJson(pieces);
  }

  /** The smallest such string: the escape of a backspace is read as the letter b. */
  lemma BackspaceIsReadAsB()
    ensures Meaning([Escape('b')]) == "b" && RfcMeaning([Escape('b')]) == Some("\U{0008}")
  {
    var pieces := [Escape('b')];
    assert pieces[1..] == [] && RfcMeaning([]) == Some([]) && Meaning([]) == [];
    assert RfcPiece(pieces[0]) == Some('\U{0008}');
    assert ['\U{0008}'] + [] == "\U{0008}";
  }
}

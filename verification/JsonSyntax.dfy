/** The documents the reader takes, as parse trees over tokens, without the
  * reader: brackets are closed, commas stand between elements, a member is a
  * name, a colon and a value, and comments may stand where trees have notes. */
module JsonSyntax {
  import opened CStrings
  import opened JsonLexing
  import opened JsonStrings
  import opened JsonNumbers
  import opened JsonValues

  /** A value with the comments before it. An array without elements has no
    * place for a comment between its brackets. */
  datatype Tree =
    | Scalar(notes: seq<Lexeme>, token: Lexeme)
    | NoItems(notes: seq<Lexeme>)
    | Items(notes: seq<Lexeme>, items: Elements)
    | Record(notes: seq<Lexeme>, fields: Fields)

  /** Each element with the comments after it. */
  datatype Elements =
    | LastItem(item: Tree, after: seq<Lexeme>)
    | NextItem(item: Tree, after: seq<Lexeme>, others: Elements)

  /** Each member with the comments before its name and after its value. What
    * separates it from the next one is a comma, except after a comment. */
  datatype Fields =
    | NoField(before: seq<Lexeme>)
    | LastField(before: seq<Lexeme>, name: Lexeme, value: Tree, after: seq<Lexeme>)
    | NextField(before: seq<Lexeme>, name: Lexeme, value: Tree, after: seq<Lexeme>, separator: Lexeme, others: Fields)

  const OPEN_BRACKET := Lexeme(ArrayBegin, "[")
  const CLOSE_BRACKET := Lexeme(ArrayEnd, "]")
  const OPEN_BRACE := Lexeme(ObjectBegin, "{")
  const CLOSE_BRACE := Lexeme(ObjectEnd, "}")

  /** The tokens of a tree in order. */
  function Words(t: Tree): seq<Lexeme> {
    match t
    case Scalar(notes, token) => notes + [token]
    case NoItems(notes) => notes + [OPEN_BRACKET, CLOSE_BRACKET]
    case Items(notes, items) => notes + ([OPEN_BRACKET] + ItemWords(items))
    case Record(notes, fields) => notes + ([OPEN_BRACE] + FieldWords(fields))
  }

  function ItemWords(e: Elements): seq<Lexeme> {
    match e
    case LastItem(item, after) => Words(item) + (after + [CLOSE_BRACKET])
    case NextItem(item, after, others) => Words(item) + ((after + [COMMA]) + ItemWords(others))
  }

  function FieldWords(f: Fields): seq<Lexeme> {
    match f
    case NoField(before) => before + [CLOSE_BRACE]
    case LastField(before, name, value, after) =>
      (before + [name]) + ([COLON] + (Words(value) + (after + [CLOSE_BRACE])))
    case NextField(before, name, value, after, separator, others) =>
      (before + [name]) + ([COLON] + (Words(value) + ((after + [separator]) + FieldWords(others))))
  }

  predicate AllComments(toks: seq<Lexeme>) {
    forall l <- toks :: l.kind == CommentToken
  }

  /** What stands between the quotes of a string token. */
  function Content(l: Lexeme): Unescaped
    requires |l.text| >= 2
  {
    Unescape(l.text[1..|l.text| - 1], 0, "")
  }

  predicate IsString(l: Lexeme) {
    l.kind == StringToken && |l.text| >= 2 && Content(l).Text?
  }

  predicate IsNumber(l: Lexeme, scan: string -> bool) {
    l.kind == NumberToken && IsNumberText(l.text) && !Meaning(l.text, scan).NotANumber?
  }

  predicate IsAtom(l: Lexeme, scan: string -> bool) {
    IsWord(l.kind, l.text) || IsString(l) || IsNumber(l, scan)
  }

  /** After a comment every token but a comment and a closing brace is taken for a comma. */
  predicate Separates(after: seq<Lexeme>, separator: Lexeme) {
    if after == [] then separator == COMMA else separator.kind !in {CommentToken, ObjectEnd}
  }

  predicate Legal(t: Tree, scan: string -> bool) {
    && AllComments(t.notes)
    && match t
       case Scalar(_, token) => IsAtom(token, scan)
       case NoItems(_) => true
       case Items(_, items) => LegalItems(items, scan)
       case Record(_, fields) => LegalFields(fields, "", scan)
  }

  predicate LegalItems(e: Elements, scan: string -> bool) {
    && Legal(e.item, scan) && AllComments(e.after)
    && (e.NextItem? ==> LegalItems(e.others, scan))
  }

  /** `last` is the name before these members. The closing brace may stand where
    * a name is due only when there was none or it was empty. */
  predicate LegalFields(f: Fields, last: string, scan: string -> bool) {
    && AllComments(f.before)
    && (f.NoField? ==> last == "")
    && (!f.NoField? ==> IsString(f.name) && Legal(f.value, scan) && AllComments(f.after))
    && (f.NextField? ==> Separates(f.after, f.separator) && LegalFields(f.others, Content(f.name).text, scan))
  }

  // ---------------------------------------------------------------- what a tree stands for

  function ValueOf(t: Tree, scan: string -> bool): Value
    requires Legal(t, scan)
  {
    match t
    case Scalar(_, token) => AtomValue(token, scan)
    case NoItems(_) => Arr([])
    case Items(_, items) => Arr(ItemValues(items, scan))
    case Record(_, fields) => Obj(FieldMembers(fields, "", scan, []))
  }

  function AtomValue(l: Lexeme, scan: string -> bool): Value
    requires IsAtom(l, scan)
  {
    match l.kind
    case TrueToken => Bool(true)
    case FalseToken => Bool(false)
    case NullToken => Null
    case StringToken => Str(Cut(Content(l).text))
    case NumberToken =>
      match Meaning(l.text, scan)
      case Signed(i) => Int(i)
      case Unsigned(u) => UInt(u)
      case Double(text) => Real(text)
  }

  function ItemValues(e: Elements, scan: string -> bool): seq<Value>
    requires LegalItems(e, scan)
  {
    [ValueOf(e.item, scan)] + if e.NextItem? then ItemValues(e.others, scan) else []
  }

  /** Members in the order of the text; a name that comes again replaces the value. */
  function FieldMembers(f: Fields, last: string, scan: string -> bool, done: seq<Member>): seq<Member>
    requires LegalFields(f, last, scan)
  {
    if f.NoField? then done else
    var members := Store(done, Cut(Content(f.name).text), ValueOf(f.value, scan));
    if f.LastField? then members else FieldMembers(f.others, Content(f.name).text, scan, members)
  }

  /** The document has the tokens of this tree between the two positions. */
  ghost predicate Spells(doc: string, scan: string -> bool, pos: nat, t: Tree, end: nat) {
    Legal(t, scan) && Cuts(doc, pos, Words(t), end)
  }
}

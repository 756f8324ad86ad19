/** JSON Pointer as `_resolve` evaluates it (llm-worker/worker/rules.py, with the pattern of
    api/app/pipelines/catalog.py), against the paths of a document and how section 3 of RFC 6901 spells
    them. */
module JsonPointer {
  import opened Common
  import opened Json

  // ----- paths, and how they are spelt ------------------------------------------------------------------

  datatype Step = Field(name: string) | Item(index: nat)

  function Child(node: Json, step: Step): Option<Json> {
    match (node, step)
    case (Obj(fields), Field(name)) => if name in fields then Some(fields[name]) else None
    case (Arr(items), Item(i)) => if i < |items| then Some(items[i]) else None
    case _ => None
  }

  /** The node a path leads to. */
  function At(doc: Json, path: seq<Step>): Option<Json> {
    if path == [] then Some(doc)
    else match Child(doc, path[0]) case None => None case Some(node) => At(node, path[1..])
  }

  function Escape(name: string): string {
    if name == "" then ""
    else (if name[0] == '~' then "~0" else if name[0] == '/' then "~1" else [name[0]]) + Escape(name[1..])
  }

  function Numeral(n: nat): string {
    if n < 10 then [Digit(n)] else Numeral(n / 10) + [Digit(n % 10)]
  }

  function Digit(n: nat): char
    requires n < 10
  {
    '0' + n as char
  }

  /** A step as a reference token, and as it is spelt in a pointer. */
  function Name(step: Step): string {
    match step case Field(name) => name case Item(i) => Numeral(i)
  }

  function Names(path: seq<Step>): seq<string> {
    seq(|path|, i requires 0 <= i < |path| => Name(path[i]))
  }

  function SpellNames(names: seq<string>): string {
    if names == [] then "" else "/" + (Escape(names[0]) + SpellNames(names[1..]))
  }

  function Spell(path: seq<Step>): string {
    SpellNames(Names(path))
  }

  // ----- the pattern, and reading a pointer -----------------------------------------------------------------

  /** `([^/~]|~[01])*`. */
  predicate TokenOk(t: string) {
    if t == "" then true
    else if t[0] == '~' then |t| >= 2 && (t[1] == '0' || t[1] == '1') && TokenOk(t[2..])
    else t[0] != '/' && TokenOk(t[1..])
  }

  predicate PiecesOk(pieces: seq<string>) {
    forall i :: 0 <= i < |pieces| ==> TokenOk(pieces[i])
  }

  /** `^(/([^/~]|~[01])*)*$`. */
  predicate WellFormed(p: string) {
    p == "" || (p[0] == '/' && PiecesOk(Split(p[1..])))
  }

  /** `str.split("/")`: one piece more than there are slashes. */
  function Split(s: string): (r: seq<string>)
    ensures r != []
  {
    if s == "" then [""]
    else if s[0] == '/' then [""] + Split(s[1..])
    else var r := Split(s[1..]); [[s[0]] + r[0]] + r[1..]
  }

  /** `str.replace` of the pair (a, b) by c, from the left. */
  function Replace(s: string, a: char, b: char, c: char): string {
    if |s| < 2 then s
    else if s[0] == a && s[1] == b then [c] + Replace(s[2..], a, b, c)
    else [s[0]] + Replace(s[1..], a, b, c)
  }

  function TwoPass(t: string): string {
    Replace(Replace(t, '~', '1', '/'), '~', '0', '~')
  }

  /** One pass from the left: what section 4 asks the two replacements to amount to. */
  function Decode(t: string): string {
    if |t| < 2 then t
    else if t[0] == '~' && t[1] == '0' then "~" + Decode(t[2..])
    else if t[0] == '~' && t[1] == '1' then "/" + Decode(t[2..])
    else [t[0]] + Decode(t[1..])
  }

  /** On every token the pattern allows, `~1` first and `~0` second is the one-pass decoding. */
  lemma {:induction false} TwoPassIsDecode(t: string)
    requires TokenOk(t)
    ensures TwoPass(t) == Decode(t)
  {
    if |t| >= 2 {
      if t[0] == '~' {
        TwoPassIsDecode(t[2..]);
        if t[1] == '0' {
          ReplaceSkips(t[1..]);
          assert t[1..][1..] == t[2..];
          var first := Replace(t, '~', '1', '/');
          assert first == "~0" + Replace(t[2..], '~', '1', '/');
          assert first[2..] == Replace(t[2..], '~', '1', '/');
        }
      } else {
        TwoPassIsDecode(t[1..]);
      }
    }
  }

  /** A character that is no `~` starts no pair. */
  lemma ReplaceSkips(s: string)
    requires s != "" && s[0] != '~'
    ensures Replace(s, '~', '1', '/') == [s[0]] + Replace(s[1..], '~', '1', '/')
  {
  }

  /** The other order is wrong: `~01` would become a slash. */
  lemma OrderMatters()
    ensures TokenOk("~01") && Decode("~01") == "~1"
    ensures Replace(Replace("~01", '~', '0', '~'), '~', '1', '/') == "/"
  {
    assert "~01"[2..] == "1" && "1"[1..] == "";
    assert "~" + Decode("1") == "~1";
    assert Replace("~01", '~', '0', '~') == "~1";
    assert Replace("", '~', '1', '/') == "";
    assert "~1"[2..] == "";
  }

  lemma {:induction false} DecodeEscape(name: string)
    ensures TokenOk(Escape(name)) && Decode(Escape(name)) == name
    ensures '/' !in Escape(name)
  {
    if name != "" {
      DecodeEscape(name[1..]);
      var head := if name[0] == '~' then "~0" else if name[0] == '/' then "~1" else [name[0]];
      assert Escape(name) == head + Escape(name[1..]);
      assert Escape(name)[|head|..] == Escape(name[1..]);
    }
  }

  lemma {:induction false} EscapeDecode(t: string)
    requires TokenOk(t)
    ensures Escape(Decode(t)) == t
  {
    if |t| >= 2 {
      var k := if t[0] == '~' then 2 else 1;
      EscapeDecode(t[k..]);
      assert Decode(t)[1..] == Decode(t[k..]);
      assert t == t[..k] + t[k..];
    } else if |t| == 1 {
      assert t[1..] == "";
    }
  }

  function Replaced(pieces: seq<string>): seq<string> {
    if pieces == [] then [] else [TwoPass(pieces[0])] + Replaced(pieces[1..])
  }

  /** The pieces, decoded: what `_resolve` walks. */
  function Tokens(p: string): seq<string> {
    if p == "" then [] else Replaced(Split(p[1..]))
  }

  // ----- a pointer and its tokens ------------------------------------------------------------------------------

  lemma {:induction false} SplitPiece(piece: string, rest: string)
    requires '/' !in piece && (rest != "" ==> rest[0] == '/')
    ensures Split(piece + rest) == [piece] + if rest == "" then [] else Split(rest[1..])
  {
    if piece == "" {
      assert piece + rest == rest;
    } else {
      SplitPiece(piece[1..], rest);
      assert (piece + rest)[1..] == piece[1..] + rest;
      assert [piece[0]] + piece[1..] == piece;
    }
  }

  /** Reading what was spelt gives the names back. */
  lemma {:induction false} TokensOfSpelling(names: seq<string>)
    ensures WellFormed(SpellNames(names)) && Tokens(SpellNames(names)) == names
  {
    hide TwoPass, TokenOk, Split, Escape, Decode;
    if names != [] {
      var p, rest := SpellNames(names), SpellNames(names[1..]);
      TokensOfSpelling(names[1..]);
      DecodeEscape(names[0]);
      TwoPassIsDecode(Escape(names[0]));
      assert p[1..] == Escape(names[0]) + rest;
      SplitPiece(Escape(names[0]), rest);
      var pieces := Split(p[1..]);
      assert pieces[1..] == if rest == "" then [] else Split(rest[1..]);
      assert forall i :: 0 < i < |pieces| ==> pieces[i] == pieces[1..][i - 1];
      assert p != "" && Tokens(p) == [TwoPass(pieces[0])] + Replaced(pieces[1..]);
      assert Replaced(pieces[1..]) == names[1..];
      assert names == [names[0]] + names[1..];
    }
  }

  function Joined(pieces: seq<string>): string {
    if pieces == [] then "" else "/" + (pieces[0] + Joined(pieces[1..]))
  }

  lemma JoinedLonger(c: char, r: seq<string>, tail: string)
    requires r != [] && Joined(r) == "/" + tail
    ensures Joined([[c] + r[0]] + r[1..]) == "/" + ([c] + tail)
  {
    assert Joined(r)[1..] == r[0] + Joined(r[1..]) == tail;
    hide Joined;
    OneJoined([c] + r[0], r[1..]);
    assert ([c] + r[0]) + Joined(r[1..]) == [c] + (r[0] + Joined(r[1..]));
  }

  lemma OneJoined(piece: string, rest: seq<string>)
    ensures Joined([piece] + rest) == "/" + (piece + Joined(rest))
  {
    assert ([piece] + rest)[1..] == rest;
  }

  lemma {:induction false} JoinSplit(s: string)
    ensures Joined(Split(s)) == "/" + s
  {
    if s == "" {
      assert Joined([""][1..]) == "";
    } else {
      hide Joined;
      JoinSplit(s[1..]);
      JoinedLonger(s[0], Split(s[1..]), s[1..]);
      OneJoined("", Split(s[1..]));
      assert s == [s[0]] + s[1..];
    }
  }

  lemma {:induction false} SpellReplaced(pieces: seq<string>)
    requires PiecesOk(pieces)
    ensures SpellNames(Replaced(pieces)) == Joined(pieces)
  {
    if pieces != [] {
      SpellReplaced(pieces[1..]);
      TwoPassIsDecode(pieces[0]);
      EscapeDecode(pieces[0]);
      assert Replaced(pieces)[1..] == Replaced(pieces[1..]);
    }
  }

  /** And spelling what was read gives the pointer back: the pattern's pointers and the sequences of names
      are in one-to-one correspondence. */
  lemma SpellingOfTokens(p: string)
    requires WellFormed(p)
    ensures SpellNames(Tokens(p)) == p
  {
    if p != "" {
      JoinSplit(p[1..]);
      SpellReplaced(Split(p[1..]));
    }
  }

  // ----- walking the document ----------------------------------------------------------------------------------

  /** The characters `str.isdigit` accepts, each with its value for `int`, or None where `int` refuses it
      (a superscript two, say). */
  type Digits = map<char, Option<nat>>

  /** The ASCII digits are among them, with their values. */
  ghost predicate Python(digits: Digits) {
    forall n: nat :: n < 10 ==> Digit(n) in digits && digits[Digit(n)] == Some(n)
  }

  predicate Ascii(c: char) {
    '0' <= c <= '9'
  }

  datatype Index = NoIndex | Index(n: nat) | Unparsable

  /** `int`, of a string all of digits. */
  function ParseInt(t: string, digits: Digits): Option<nat>
    requires forall i :: 0 <= i < |t| ==> t[i] in digits
  {
    if t == "" then Some(0)
    else
      var front := ParseInt(t[..|t| - 1], digits);
      var last := digits[t[|t| - 1]];
      if front.Some? && last.Some? then Some(10 * front.value + last.value) else None
  }

  function IndexOf(t: string, digits: Digits): Index {
    if t == "" || exists i :: 0 <= i < |t| && t[i] !in digits then NoIndex
    else if t != "0" && t[0] == '0' then NoIndex
    else match ParseInt(t, digits) case None => Unparsable case Some(n) => Index(n)
  }

  /** `int` raises on what `isdigit` let through. */
  datatype Answer = Found(node: Json) | Missing | Raises

  function Into(node: Json, t: string, digits: Digits): Answer {
    match node
    case Obj(fields) => if t in fields then Found(fields[t]) else Missing
    case Arr(items) =>
      (match IndexOf(t, digits)
       case NoIndex => Missing
       case Unparsable => Raises
       case Index(n) => if n < |items| then Found(items[n]) else Missing)
    case _ => Missing
  }

  function Walk(doc: Json, tokens: seq<string>, digits: Digits): Answer {
    if tokens == [] then Found(doc)
    else match Into(doc, tokens[0], digits) case Found(node) => Walk(node, tokens[1..], digits) case a => a
  }

  /** `_resolve`. */
  method Resolve(doc: Json, pointer: string, digits: Digits) returns (answer: Answer)
    ensures answer == Walk(doc, Tokens(pointer), digits)
  {
    if pointer == "" {
      return Found(doc);
    }
    var node := doc;
    var pieces := Split(pointer[1..]);
    for i := 0 to |pieces|
      invariant Walk(doc, Replaced(pieces), digits) == Walk(node, Replaced(pieces[i..]), digits)
    {
      var token := TwoPass(pieces[i]);
      assert pieces[i..][1..] == pieces[i + 1..];
      var next := Into(node, token, digits);
      if !next.Found? {
        return next;
      }
      node := next.node;
    }
    answer := Found(node);
  }

  // ----- numerals -----------------------------------------------------------------------------------------------

  lemma {:induction false} NumeralIndex(n: nat, digits: Digits)
    requires Python(digits)
    ensures Numeral(n) != "" && forall i :: 0 <= i < |Numeral(n)| ==> Ascii(Numeral(n)[i]) && Numeral(n)[i] in digits
    ensures ParseInt(Numeral(n), digits) == Some(n)
    ensures Numeral(n)[0] == '0' ==> n == 0
  {
    var t := Numeral(n);
    if n >= 10 {
      NumeralIndex(n / 10, digits);
      assert t[..|t| - 1] == Numeral(n / 10);
    } else {
      assert t[..0] == "";
    }
  }

  lemma IndexOfNumeral(n: nat, digits: Digits)
    requires Python(digits)
    ensures IndexOf(Numeral(n), digits) == Index(n)
  {
    NumeralIndex(n, digits);
  }

  lemma LastDigit(n: nat, d: nat, digits: Digits, t: string)
    requires d < 10 && n > 0 && Python(digits) && t != "" && forall i :: 0 <= i < |t| ==> t[i] in digits
    requires ParseInt(t[..|t| - 1], digits) == Some(n) && t[|t| - 1] == Digit(d)
    ensures ParseInt(t, digits) == Some(10 * n + d)
    ensures Numeral(10 * n + d) == Numeral(n) + [Digit(d)]
  {
    assert (10 * n + d) / 10 == n && (10 * n + d) % 10 == d;
  }

  /** A numeral with no needless zero is the numeral of its value. */
  lemma {:induction false} NumeralOfIndex(t: string, digits: Digits)
    requires Python(digits) && t != "" && forall i :: 0 <= i < |t| ==> Ascii(t[i]) && t[i] in digits
    requires t != "0" ==> t[0] != '0'
    ensures ParseInt(t, digits).Some? && Numeral(ParseInt(t, digits).value) == t
    ensures |t| > 1 ==> ParseInt(t, digits).value >= 10
  {
    var front, c := t[..|t| - 1], t[|t| - 1];
    var d := c as int - '0' as int;
    assert c == Digit(d) && digits[c] == Some(d as nat);
    assert t == front + [c];
    if |t| > 1 {
      NumeralOfIndex(front, digits);
      var n := ParseInt(front, digits).value;
      hide ParseInt, Numeral;
      LastDigit(n, d, digits, t);
    }
  }

  // ----- the two compared ------------------------------------------------------------------------------------------

  lemma NamesTail(path: seq<Step>)
    requires path != []
    ensures Names(path)[0] == Name(path[0]) && Names(path)[1..] == Names(path[1..])
  {
  }

  lemma {:induction false} PathIsWalked(doc: Json, path: seq<Step>, digits: Digits)
    requires Python(digits) && At(doc, path).Some?
    ensures Walk(doc, Names(path), digits) == Found(At(doc, path).value)
  {
    hide IndexOf, Numeral;
    if path != [] {
      NamesTail(path);
      if path[0].Item? {
        IndexOfNumeral(path[0].index, digits);
      }
      PathIsWalked(Child(doc, path[0]).value, path[1..], digits);
    }
  }

  /** Every path that exists: `_resolve` of its spelling is exactly its node. */
  lemma SpellingResolves(doc: Json, path: seq<Step>, digits: Digits)
    requires Python(digits) && At(doc, path).Some?
    ensures Walk(doc, Tokens(Spell(path)), digits) == Found(At(doc, path).value)
  {
    TokensOfSpelling(Names(path));
    PathIsWalked(doc, path, digits);
  }

  /** A token `_resolve` takes for an index though it is not one: all digits to `isdigit`, but not all
      ASCII. */
  predicate Misread(t: string, digits: Digits) {
    !IndexOf(t, digits).NoIndex? && exists i :: 0 <= i < |t| && !Ascii(t[i])
  }

  predicate NoneMisread(tokens: seq<string>, digits: Digits) {
    forall i :: 0 <= i < |tokens| ==> !Misread(tokens[i], digits)
  }

  /** The answer RFC 6901 gives: the node of a path so spelt, or nothing when none exists. */
  ghost predicate Conforms(doc: Json, p: string, digits: Digits) {
    match Walk(doc, Tokens(p), digits)
    case Found(node) => exists path :: Spell(path) == p && At(doc, path) == Some(node)
    case Missing => forall path :: Spell(path) == p ==> At(doc, path).None?
    case Raises => false
  }

  lemma IndexIsNumeral(t: string, digits: Digits)
    requires Python(digits) && !Misread(t, digits)
    ensures !IndexOf(t, digits).Unparsable?
    ensures IndexOf(t, digits).Index? ==> t == Numeral(IndexOf(t, digits).n)
  {
    if !IndexOf(t, digits).NoIndex? {
      NumeralOfIndex(t, digits);
    }
  }

  lemma {:induction false} WalkedHasPath(doc: Json, tokens: seq<string>, digits: Digits) returns (path: seq<Step>)
    requires Python(digits) && NoneMisread(tokens, digits)
    ensures !Walk(doc, tokens, digits).Raises?
    ensures Walk(doc, tokens, digits).Found? ==> Names(path) == tokens && At(doc, path) == Some(Walk(doc, tokens, digits).node)
    decreases |tokens|
  {
    path := [];
    if tokens != [] {
      IndexIsNumeral(tokens[0], digits);
      var next := Into(doc, tokens[0], digits);
      if next.Found? {
        var rest := WalkedHasPath(next.node, tokens[1..], digits);
        var step := if doc.Obj? then Field(tokens[0]) else Item(IndexOf(tokens[0], digits).n);
        path := [step] + rest;
        assert path[1..] == rest;
        NamesTail(path);
        assert tokens == [tokens[0]] + tokens[1..];
      }
    }
  }

  lemma UnmisreadConforms(doc: Json, p: string, digits: Digits)
    requires Python(digits) && WellFormed(p) && NoneMisread(Tokens(p), digits)
    ensures Conforms(doc, p, digits)
  {
    var path := WalkedHasPath(doc, Tokens(p), digits);
    SpellingOfTokens(p);
    forall other | Spell(other) == p && At(doc, other).Some?
      ensures Walk(doc, Tokens(p), digits).Found?
    {
      SpellingResolves(doc, other, digits);
    }
  }

  /** Objects one inside the other, a name each, down to `inner`. */
  function Nest(names: seq<string>, inner: Json): Json {
    if names == [] then inner else Obj(map[names[0] := Nest(names[1..], inner)])
  }

  lemma {:induction false} WalkNest(names: seq<string>, rest: seq<string>, inner: Json, digits: Digits)
    ensures Walk(Nest(names, inner), names + rest, digits) == Walk(inner, rest, digits)
  {
    if names == [] {
      assert names + rest == rest;
    } else {
      WalkNest(names[1..], rest, inner, digits);
      assert (names + rest)[1..] == names[1..] + rest;
    }
  }

  lemma {:induction false} PathOfNest(names: seq<string>, inner: Json, path: seq<Step>)
    requires |names| <= |path| && At(Nest(names, inner), path).Some?
    ensures At(inner, path[|names|..]).Some?
  {
    if names == [] {
      assert path[0..] == path;
    } else {
      PathOfNest(names[1..], inner, path[1..]);
      assert path[1..][|names| - 1..] == path[|names|..];
    }
  }

  /** A document in which a misread token leads where no path leads, or makes `int` raise. */
  lemma MisreadStrays(p: string, k: nat, digits: Digits) returns (doc: Json)
    requires Python(digits) && WellFormed(p) && k < |Tokens(p)| && Misread(Tokens(p)[k], digits)
    ensures !Conforms(doc, p, digits)
  {
    var tokens := Tokens(p);
    var before, t, after := tokens[..k], tokens[k], tokens[k + 1..];
    assert tokens == before + tokens[k..] && tokens[k..][1..] == after;
    var index := IndexOf(t, digits);
    var items := if index.Index? then seq(index.n + 1, i => Nest(after, Null)) else [];
    doc := Nest(before, Arr(items));
    WalkNest(before, tokens[k..], Arr(items), digits);
    if index.Index? {
      WalkNest(after, [], Null, digits);
      assert after + [] == after;
      assert Walk(doc, tokens, digits) == Found(Null);
      forall path | Spell(path) == p ensures At(doc, path).None? {
        NoPathMisreads(p, k, digits, path, items);
      }
    }
  }

  lemma NoPathMisreads(p: string, k: nat, digits: Digits, path: seq<Step>, items: seq<Json>)
    requires Python(digits) && k < |Tokens(p)| && Misread(Tokens(p)[k], digits) && Spell(path) == p
    ensures At(Nest(Tokens(p)[..k], Arr(items)), path).None?
  {
    TokensOfSpelling(Names(path));
    if At(Nest(Tokens(p)[..k], Arr(items)), path).Some? {
      PathOfNest(Tokens(p)[..k], Arr(items), path);
      assert path[k..][0] == path[k];
      assert path[k].Item? && Name(path[k]) == Tokens(p)[k];
      NumeralIndex(path[k].index, digits);
      assert false;
    }
  }

  /** `_resolve` gives the standard's answer on every document, for a pointer the pattern allows, exactly
      when none of its tokens is misread. */
  lemma ConformsExactly(p: string, digits: Digits)
    requires Python(digits) && WellFormed(p)
    ensures (forall doc :: Conforms(doc, p, digits)) <==> NoneMisread(Tokens(p), digits)
  {
    hide Conforms;
    if NoneMisread(Tokens(p), digits) {
      forall doc ensures Conforms(doc, p, digits) {
        UnmisreadConforms(doc, p, digits);
      }
    } else {
      var k :| 0 <= k < |Tokens(p)| && Misread(Tokens(p)[k], digits);
      var doc := MisreadStrays(p, k, digits);
    }
  }

  /** Two such pointers: the Arabic-Indic three reads as the index 3, the superscript two makes `int`
      raise. */
  lemma ForeignDigits(digits: Digits)
    requires Python(digits)
    requires '\U{0663}' in digits && digits['\U{0663}'] == Some(3)
    requires '\U{00B2}' in digits && digits['\U{00B2}'] == None
    ensures var doc := Arr([Null, Null, Null, Bool(true)]);
            && Walk(doc, Tokens("/\U{0663}"), digits) == Found(Bool(true)) && !Conforms(doc, "/\U{0663}", digits)
            && Walk(doc, Tokens("/\U{00B2}"), digits) == Raises && !Conforms(doc, "/\U{00B2}", digits)
  {
    var doc := Arr([Null, Null, Null, Bool(true)]);
    var three, two := '\U{0663}', '\U{00B2}';
    OneDigitToken(three, digits);
    OneDigitToken(two, digits);
    forall path | Spell(path) == "/" + [three] ensures At(doc, path).None? {
      assert Tokens("/" + [three])[..0] == [];
      NoPathMisreads("/" + [three], 0, digits, path, doc.items);
    }
  }

  lemma OneDigitToken(c: char, digits: Digits)
    requires c in digits && c != '0' && c != '/'
    ensures Tokens("/" + [c]) == [[c]]
    ensures IndexOf([c], digits) == match digits[c] case None => Unparsable case Some(n) => Index(n)
  {
    assert [c][1..] == "" && [c][..0] == "";
    assert ("/" + [c])[1..] == [c];
    assert Split("") == [""] && [c] + "" == [c];
    assert Split([c]) == [[c]] + [""][1..] == [[c]];
    assert Replaced([[c]]) == [TwoPass([c])] + Replaced([[c]][1..]);
    assert TwoPass([c]) == [c];
    assert ParseInt("", digits) == Some(0);
    assert ParseInt([c], digits) == digits[c];
  }
}

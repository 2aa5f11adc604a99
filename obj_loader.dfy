/**
 * `ObjLoader::loadModel` (engine/asset/obj_loader.cpp): a line-oriented
 * reader of the Wavefront OBJ directives `v`, `vt`, `vn` and `f`, followed
 * by one pass that deduplicates the (position, texcoord, normal) triples of
 * the faces and re-indexes them into a single vertex array.
 *
 * The text is split exactly as `std::getline` and `operator>>` split it.
 * Reading a float or a decimal index out of the text is foreign to the
 * model: a `Reader` supplies those values.
 */
module ObjLoader {
  import opened Glm
  import opened Wrappers
  import opened Render
  import opened AssetModel

  /** 2^32: unsigned int arithmetic is taken modulo this. */
  const Two32: nat := 0x1_0000_0000

  // ---------------------------------------------------------------------
  // Splitting text
  // ---------------------------------------------------------------------

  /** The first index of `d` in `s`, or `|s|` when there is none. */
  function Find(s: string, d: char): (k: nat)
    ensures k <= |s|
    ensures d !in s[..k]
    ensures k < |s| ==> s[k] == d
  {
    if s == [] then 0
    else if s[0] == d then 0
    else
      var k := 1 + Find(s[1..], d);
      assert s[..k] == [s[0]] + s[1..][..k - 1];
      k
  }

  /**
   * The pieces that repeated `std::getline(in, piece, d)` yields: each
   * delimiter ends a piece and is dropped; a delimiter at the very end does
   * not start an empty last piece, and empty input yields no piece.
   */
  function Split(s: string, d: char): (pieces: seq<string>)
    ensures forall p | p in pieces :: d !in p
    decreases |s|
  {
    if s == [] then []
    else
      var k := Find(s, d);
      if k == |s| then [s] else [s[..k]] + Split(s[k + 1..], d)
  }

  /** The pieces joined back together, with `d` between two pieces. */
  function Join(pieces: seq<string>, d: char): string
  {
    if pieces == [] then []
    else if |pieces| == 1 then pieces[0]
    else pieces[0] + [d] + Join(pieces[1..], d)
  }

  /** The text ends with the delimiter. */
  predicate EndsWith(s: string, d: char)
  {
    s != [] && s[|s| - 1] == d
  }

  /** Joining a first piece in front of further pieces puts one delimiter between them, whatever follows. */
  lemma JoinCons(p: string, ps: seq<string>, d: char, tail: string, rest: string)
    requires ps != [] && Join(ps, d) + tail == rest
    ensures Join([p] + ps, d) + tail == p + [d] + rest
  {
    assert ([p] + ps)[1..] == ps;
  }

  /** Splitting loses only a delimiter at the very end of the text. */
  lemma {:induction false} SplitJoin(s: string, d: char)
    ensures Join(Split(s, d), d) + (if EndsWith(s, d) then [d] else []) == s
    decreases |s|
  {
    if s != [] {
      var k := Find(s, d);
      if k == |s| {
        assert s[..k] == s;
      } else {
        var rest := s[k + 1..];
        assert s == s[..k] + [d] + rest;
        if rest != [] {
          SplitJoin(rest, d);
          var ps := Split(rest, d);
          assert ps != [];
          assert Split(s, d) == [s[..k]] + ps;
          assert EndsWith(s, d) == EndsWith(rest, d);
          JoinCons(s[..k], ps, d, if EndsWith(rest, d) then [d] else [], rest);
        }
      }
    }
  }

  /** The characters `operator>>` skips: those of `isspace` in the C locale. */
  predicate IsSpace(c: char)
  {
    c == ' ' || c == '\t' || c == '\n' || c == '\r' || c == '\U{000B}' || c == '\U{000C}'
  }

  /** The length of the word at the start of `s`: up to the first space. */
  function WordLength(s: string): (k: nat)
    ensures k <= |s|
    ensures forall i | 0 <= i < k :: !IsSpace(s[i])
    ensures k < |s| ==> IsSpace(s[k])
  {
    if s == [] || IsSpace(s[0]) then 0 else 1 + WordLength(s[1..])
  }

  /** The words that repeated `in >> word` reads from `s`, in order. */
  function Tokens(s: string): (words: seq<string>)
    ensures forall w | w in words :: w != [] && forall c | c in w :: !IsSpace(c)
    decreases |s|
  {
    if s == [] then []
    else if IsSpace(s[0]) then Tokens(s[1..])
    else
      var k := WordLength(s);
      [s[..k]] + Tokens(s[k..])
  }

  /** A word ends at the first space, so what follows that space does not change it. */
  lemma {:induction false} WordLengthBeforeSpace(a: string, t: string)
    requires t != [] && IsSpace(t[0])
    ensures WordLength(a + t) == WordLength(a)
    decreases |a|
  {
    if a != [] && !IsSpace(a[0]) {
      assert (a + t)[1..] == a[1..] + t;
      WordLengthBeforeSpace(a[1..], t);
    }
  }

  /** A text made of one word reads as exactly that word. */
  lemma TokensWord(w: string)
    requires w != [] && forall c | c in w :: !IsSpace(c)
    ensures Tokens(w) == [w]
  {
    var k := WordLength(w);
    assert w[..k] == w && w[k..] == [];
  }

  /**
   * A space separates: the words of `a`, a space and `b` are the words of
   * `a` followed by the words of `b`, so no word spans the space.
   */
  lemma {:induction false} TokensSep(a: string, c: char, b: string)
    requires IsSpace(c)
    ensures Tokens(a + [c] + b) == Tokens(a) + Tokens(b)
    decreases |a|
  {
    var s := a + [c] + b;
    if a == [] {
      assert s[1..] == b;
    } else if IsSpace(a[0]) {
      assert s[1..] == a[1..] + [c] + b;
      TokensSep(a[1..], c, b);
    } else {
      WordLengthBeforeSpace(a, [c] + b);
      assert s == a + ([c] + b);
      var k := WordLength(a);
      assert s[..k] == a[..k];
      assert s[k..] == a[k..] + [c] + b;
      TokensSep(a[k..], c, b);
    }
  }

  // ---------------------------------------------------------------------
  // Reading lines
  // ---------------------------------------------------------------------

  /**
   * The numbers read out of the text. `vec3(line)` and `vec2(line)` are what
   * `iss >> x >> y >> z` leaves after the directive of `line`; `index(seg)`
   * is `std::stoul(seg)` for a non-empty face segment.
   */
  datatype Reader = Reader(vec3: string -> Vec3, vec2: string -> Vec2, index: string -> nat)

  /** `ObjVertex`: its `operator==` is field-wise, which is datatype equality. */
  datatype ObjVertex = ObjVertex(positionIndex: U32, texCoordIndex: U32, normalIndex: U32)

  /** The four collections the reading loop fills. */
  datatype ObjData = ObjData(positions: seq<Vec3>, texCoords: seq<Vec2>, normals: seq<Vec3>, faces: seq<ObjVertex>)

  const NoData := ObjData([], [], [], [])

  datatype Directive = Ignored | PositionLine | TexCoordLine | NormalLine | FaceLine

  /**
   * What a line is: empty lines and lines whose first character is `#` are
   * skipped; otherwise its first word decides, and an unknown (or missing)
   * first word adds nothing.
   */
  function Classify(line: string): Directive
  {
    if line == [] || line[0] == '#' then Ignored
    else
      var words := Tokens(line);
      if words == [] then Ignored
      else if words[0] == "v" then PositionLine
      else if words[0] == "vt" then TexCoordLine
      else if words[0] == "vn" then NormalLine
      else if words[0] == "f" then FaceLine
      else Ignored
  }

  /** `indices[i] - 1` on `unsigned int`: 0 wraps to 2^32 - 1. */
  function Shift(x: U32): (r: U32)
    ensures x > 0 ==> r == x - 1
    ensures x == 0 ==> r == Two32 - 1
  {
    (x + Two32 - 1) % Two32
  }

  /**
   * Component i of a face token before the shift: the i-th `/`-separated
   * segment read by `stoul` and stored in an `unsigned int`, or 0 when that
   * segment is empty or missing.
   */
  function Raw(segments: seq<string>, i: nat, rd: Reader): U32
  {
    if i < |segments| && segments[i] != [] then rd.index(segments[i]) % Two32 else 0
  }

  /** The triple of one face token such as `1/2/3`, `1//3` or `1`. */
  function FaceVertex(token: string, rd: Reader): ObjVertex
  {
    var segments := Split(token, '/');
    ObjVertex(Shift(Raw(segments, 0, rd)), Shift(Raw(segments, 1, rd)), Shift(Raw(segments, 2, rd)))
  }

  /** The triples of a face line's tokens, one per token, in order. */
  function FaceVertices(tokens: seq<string>, rd: Reader): (vs: seq<ObjVertex>)
    ensures |vs| == |tokens|
    ensures forall k | 0 <= k < |tokens| :: vs[k] == FaceVertex(tokens[k], rd)
  {
    if tokens == [] then []
    else FaceVertices(tokens[..|tokens| - 1], rd) + [FaceVertex(tokens[|tokens| - 1], rd)]
  }

  /** One turn of the reading loop. The collections only ever grow at the end. */
  function ParseLine(data: ObjData, line: string, rd: Reader): (r: ObjData)
    ensures data.positions <= r.positions && data.texCoords <= r.texCoords
    ensures data.normals <= r.normals && data.faces <= r.faces
  {
    match Classify(line)
    case Ignored => data
    case PositionLine => data.(positions := data.positions + [rd.vec3(line)])
    case TexCoordLine => data.(texCoords := data.texCoords + [rd.vec2(line)])
    case NormalLine => data.(normals := data.normals + [rd.vec3(line)])
    case FaceLine => data.(faces := data.faces + FaceVertices(Tokens(line)[1..], rd))
  }

  /** The reading loop over the given lines. */
  function ParseLines(lines: seq<string>, rd: Reader): ObjData
  {
    if lines == [] then NoData
    else ParseLine(ParseLines(lines[..|lines| - 1], rd), lines[|lines| - 1], rd)
  }

  /** What the reading loop makes of a file's text. */
  function Parsed(content: string, rd: Reader): ObjData
  {
    ParseLines(Split(content, '\n'), rd)
  }

  // Counting what the lines contribute.

  function CountOf(lines: seq<string>, d: Directive): nat
  {
    if lines == [] then 0
    else CountOf(lines[..|lines| - 1], d) + (if Classify(lines[|lines| - 1]) == d then 1 else 0)
  }

  /** The number of face-vertex tokens: every word after the `f` of a face line. */
  function FaceTokenCount(lines: seq<string>): nat
  {
    if lines == [] then 0
    else
      var line := lines[|lines| - 1];
      FaceTokenCount(lines[..|lines| - 1]) + (if Classify(line) == FaceLine then |Tokens(line)| - 1 else 0)
  }

  /**
   * Each `v`, `vt` and `vn` line adds exactly one entry to its collection,
   * and each face token exactly one triple.
   */
  lemma {:induction false} ParseLinesCounts(lines: seq<string>, rd: Reader)
    ensures |ParseLines(lines, rd).positions| == CountOf(lines, PositionLine)
    ensures |ParseLines(lines, rd).texCoords| == CountOf(lines, TexCoordLine)
    ensures |ParseLines(lines, rd).normals| == CountOf(lines, NormalLine)
    ensures |ParseLines(lines, rd).faces| == FaceTokenCount(lines)
  {
    if lines != [] {
      ParseLinesCounts(lines[..|lines| - 1], rd);
    }
  }

  /** The lines that contribute something. */
  function Relevant(lines: seq<string>): seq<string>
  {
    if lines == [] then []
    else
      var line := lines[|lines| - 1];
      Relevant(lines[..|lines| - 1]) + (if Classify(line) == Ignored then [] else [line])
  }

  /** Empty lines, comments and unknown directives can be removed without effect. */
  lemma {:induction false} IgnoredLinesAddNothing(lines: seq<string>, rd: Reader)
    ensures ParseLines(Relevant(lines), rd) == ParseLines(lines, rd)
  {
    if lines != [] {
      var init := lines[..|lines| - 1];
      var line := lines[|lines| - 1];
      IgnoredLinesAddNothing(init, rd);
      assert ParseLines(lines, rd) == ParseLine(ParseLines(init, rd), line, rd);
      if Classify(line) != Ignored {
        var rel := Relevant(init) + [line];
        assert rel[..|rel| - 1] == Relevant(init);
        assert ParseLines(rel, rd) == ParseLine(ParseLines(Relevant(init), rd), line, rd);
      } else {
        assert Relevant(lines) == Relevant(init);
      }
    }
  }

  /**
   * A face token without any `/` gives its position and the sentinel
   * 2^32 - 1 (`0 - 1`) for both the texture coordinate and the normal.
   */
  lemma PositionOnlyToken(token: string, rd: Reader)
    requires token != [] && '/' !in token
    ensures FaceVertex(token, rd).positionIndex == Shift(rd.index(token) % Two32)
    ensures FaceVertex(token, rd).texCoordIndex == Two32 - 1
    ensures FaceVertex(token, rd).normalIndex == Two32 - 1
  {
    assert Find(token, '/') == |token|;
    assert Split(token, '/') == [token];
  }

  /** A token `p//n` leaves the texture coordinate at the sentinel 2^32 - 1. */
  lemma SkippedTexCoord(p: string, n: string, rd: Reader)
    requires p != [] && n != [] && '/' !in p && '/' !in n
    ensures FaceVertex(p + "//" + n, rd) == ObjVertex(Shift(rd.index(p) % Two32), Two32 - 1, Shift(rd.index(n) % Two32))
  {
    var token := p + "//" + n;
    assert Find(token, '/') == |p| by {
      assert token[..|p|] == p;
      assert token[|p|] == '/';
    }
    var rest := token[|p| + 1..];
    assert rest == "/" + n;
    assert Find(rest, '/') == 0;
    assert rest[1..] == n;
    assert Find(n, '/') == |n|;
    assert Split(n, '/') == [n];
    assert Split(rest, '/') == [[]] + [n];
    assert token[..|p|] == p;
    assert Split(token, '/') == [p, [], n];
  }

  // ---------------------------------------------------------------------
  // The reading loop
  // ---------------------------------------------------------------------

  /** The `for (int i = 0; i < 3; ++i)` loop over the segments of one face token. */
  method ReadFaceVertex(token: string, rd: Reader) returns (v: ObjVertex)
    ensures v == FaceVertex(token, rd)
  {
    var segments := Split(token, '/');
    var indices := new U32[3](_ => 0);
    var i := 0;
    while i < 3
      invariant 0 <= i <= 3
      invariant forall t | 0 <= t < i :: indices[t] == Raw(segments, t, rd)
      invariant forall t | i <= t < 3 :: indices[t] == 0
    {
      if i < |segments| {
        if segments[i] != [] {
          indices[i] := rd.index(segments[i]) % Two32;
        }
      } else {
        break;
      }
      i := i + 1;
    }
    v := ObjVertex(Shift(indices[0]), Shift(indices[1]), Shift(indices[2]));
  }

  /** The `while (iss >> vertexStr)` loop of a face line: one triple per remaining word. */
  method ReadFace(words: seq<string>, faces: seq<ObjVertex>, rd: Reader) returns (faces': seq<ObjVertex>)
    requires words != []
    ensures faces' == faces + FaceVertices(words[1..], rd)
  {
    faces' := faces;
    var k := 1;
    while k < |words|
      invariant 1 <= k <= |words|
      invariant faces' == faces + FaceVertices(words[1..k], rd)
    {
      var v := ReadFaceVertex(words[k], rd);
      FaceVerticesStep(faces, words, k, rd);
      faces' := faces' + [v];
      k := k + 1;
    }
    assert words[1..k] == words[1..];
  }

  lemma FaceVerticesStep(faces: seq<ObjVertex>, words: seq<string>, k: nat, rd: Reader)
    requires 1 <= k < |words|
    ensures faces + FaceVertices(words[1..k + 1], rd) == (faces + FaceVertices(words[1..k], rd)) + [FaceVertex(words[k], rd)]
  {
    assert words[1..k + 1][..k - 1] == words[1..k];
  }

  /** The body of the reading loop: dispatch one line on its first word. */
  method ReadLine(data: ObjData, line: string, rd: Reader) returns (r: ObjData)
    ensures r == ParseLine(data, line, rd)
  {
    var positions, texCoords, normals, faces := data.positions, data.texCoords, data.normals, data.faces;
    if line == [] || line[0] == '#' {
      return data;
    }
    var words := Tokens(line);
    var prefix := if words == [] then "" else words[0];
    if prefix == "v" {
      positions := positions + [rd.vec3(line)];
    } else if prefix == "vt" {
      texCoords := texCoords + [rd.vec2(line)];
    } else if prefix == "vn" {
      normals := normals + [rd.vec3(line)];
    } else if prefix == "f" {
      faces := ReadFace(words, faces, rd);
    }
    r := ObjData(positions, texCoords, normals, faces);
  }

  /** The `while (std::getline(ss, line))` loop over the text of the file. */
  method Parse(content: string, rd: Reader) returns (data: ObjData)
    ensures data == Parsed(content, rd)
  {
    var lines := Split(content, '\n');
    data := NoData;
    var n := 0;
    while n < |lines|
      invariant 0 <= n <= |lines|
      invariant data == ParseLines(lines[..n], rd)
    {
      assert lines[..n + 1][..n] == lines[..n];
      data := ReadLine(data, lines[n], rd);
      n := n + 1;
    }
    assert lines[..n] == lines;
  }

  // ---------------------------------------------------------------------
  // Deduplication and re-indexing
  // ---------------------------------------------------------------------

  /** The distinct triples of `s`, each where it first occurs. */
  function Distinct(s: seq<ObjVertex>): seq<ObjVertex>
  {
    if s == [] then []
    else
      var d := Distinct(s[..|s| - 1]);
      var x := s[|s| - 1];
      if x in d then d else d + [x]
  }

  /** One more triple adds itself to the distinct triples unless it is already there. */
  lemma DistinctStep(s: seq<ObjVertex>, n: nat)
    requires n < |s|
    ensures Distinct(s[..n + 1]) == if s[n] in Distinct(s[..n]) then Distinct(s[..n]) else Distinct(s[..n]) + [s[n]]
  {
    assert s[..n + 1][..n] == s[..n];
  }

  /** The index of the first occurrence of `v` in `s`. */
  function Position(s: seq<ObjVertex>, v: ObjVertex): (p: nat)
    requires v in s
    ensures p < |s| && s[p] == v && v !in s[..p]
  {
    if s[0] == v then 0
    else
      var p := 1 + Position(s[1..], v);
      assert s[..p] == [s[0]] + s[1..][..p - 1];
      p
  }

  lemma PositionAppend(s: seq<ObjVertex>, x: ObjVertex, v: ObjVertex)
    requires v in s
    ensures Position(s + [x], v) == Position(s, v)
  {
    var p := Position(s, v);
    var q := Position(s + [x], v);
    assert (s + [x])[..p] == s[..p];
    assert (s + [x])[p] == v;
  }

  lemma PositionOfNew(s: seq<ObjVertex>, x: ObjVertex)
    requires x !in s
    ensures Position(s + [x], x) == |s|
  {
  }

  /** The distinct triples are exactly the triples of `s`. */
  lemma {:induction false} DistinctMembers(s: seq<ObjVertex>)
    ensures forall v :: v in Distinct(s) <==> v in s
  {
    if s != [] {
      var init := s[..|s| - 1];
      DistinctMembers(init);
      assert s == init + [s[|s| - 1]];
    }
  }

  /** No triple occurs twice among the distinct triples. */
  lemma {:induction false} DistinctUnique(s: seq<ObjVertex>)
    ensures forall a, b | 0 <= a < b < |Distinct(s)| :: Distinct(s)[a] != Distinct(s)[b]
  {
    if s != [] {
      var init := s[..|s| - 1];
      DistinctUnique(init);
      var d := Distinct(init);
      var x := s[|s| - 1];
      if x !in d {
        forall a, b | 0 <= a < b < |d| + 1 ensures (d + [x])[a] != (d + [x])[b] {
          if b == |d| {
            assert (d + [x])[a] == d[a];
          }
        }
      }
    }
  }

  /** The distinct triples keep the order in which each first occurs in `s`. */
  lemma {:induction false} DistinctFirstOccurrenceOrder(s: seq<ObjVertex>, a: nat, b: nat)
    requires a < b < |Distinct(s)|
    ensures Distinct(s)[a] in s && Distinct(s)[b] in s
    ensures Position(s, Distinct(s)[a]) < Position(s, Distinct(s)[b])
  {
    DistinctMembers(s);
    var init := s[..|s| - 1];
    var x := s[|s| - 1];
    var d := Distinct(init);
    DistinctMembers(init);
    assert s == init + [x];
    if b < |d| {
      DistinctFirstOccurrenceOrder(init, a, b);
      PositionAppend(init, x, d[a]);
      PositionAppend(init, x, d[b]);
    } else {
      assert x !in d && Distinct(s) == d + [x];
      assert Distinct(s)[b] == x && Distinct(s)[a] == d[a];
      PositionOfNew(init, x);
      PositionAppend(init, x, d[a]);
    }
  }

  /** Every triple has a place among the distinct triples. */
  lemma InDistinct(s: seq<ObjVertex>, k: nat)
    requires k < |s|
    ensures s[k] in Distinct(s)
  {
    DistinctMembers(s);
  }

  /**
   * The final index list: the place of each triple among the distinct
   * triples, stored as an `unsigned int`.
   */
  function Indices(s: seq<ObjVertex>): (r: seq<U32>)
    ensures |r| == |s|
  {
    seq(|s|, k requires 0 <= k < |s| => (InDistinct(s, k); Position(Distinct(s), s[k]) % Two32))
  }

  /** Every final index names a final vertex. */
  lemma IndicesInRange(s: seq<ObjVertex>)
    ensures forall k | 0 <= k < |s| :: Indices(s)[k] < |Distinct(s)|
  {
    forall k | 0 <= k < |s| ensures Indices(s)[k] < |Distinct(s)| {
      InDistinct(s, k);
    }
  }

  /**
   * While there are at most 2^32 distinct triples, each final index names
   * the vertex of its own triple, and two triples share a final index
   * exactly when they are equal.
   */
  lemma SameIndexIffSameTriple(s: seq<ObjVertex>, k1: nat, k2: nat)
    requires |Distinct(s)| <= Two32
    requires k1 < |s| && k2 < |s|
    ensures Distinct(s)[Indices(s)[k1]] == s[k1]
    ensures Indices(s)[k1] == Indices(s)[k2] <==> s[k1] == s[k2]
  {
    InDistinct(s, k1);
    InDistinct(s, k2);
    var d := Distinct(s);
    var p1 := Position(d, s[k1]);
    var p2 := Position(d, s[k2]);
    assert Indices(s)[k1] == p1 by {
      assert p1 < Two32;
    }
    assert Indices(s)[k2] == p2 by {
      assert p2 < Two32;
    }
    assert d[p1] == s[k1] && d[p2] == s[k2];
  }

  /** What `tempPositions[objVert.positionIndex]` needs: every position index is in range. */
  predicate PositionsInRange(data: ObjData)
  {
    forall v | v in data.faces :: v.positionIndex < |data.positions|
  }

  /**
   * The vertex of a new triple: the referenced position, and the referenced
   * texture coordinate and normal when their index is in range, else (0, 0)
   * and (0, 1, 0). The tangent is not set by the loader; see README.
   */
  function BuildVertex(v: ObjVertex, data: ObjData): (r: Vertex)
    requires v.positionIndex < |data.positions|
    ensures r.position == data.positions[v.positionIndex]
    ensures r.normal == (if v.normalIndex < |data.normals| then data.normals[v.normalIndex] else Up)
    ensures r.texCoords == (if v.texCoordIndex < |data.texCoords| then data.texCoords[v.texCoordIndex] else Zero2)
    ensures r.tangent == Zero3
  {
    Vertex(data.positions[v.positionIndex],
           if v.normalIndex < |data.normals| then data.normals[v.normalIndex] else Up,
           if v.texCoordIndex < |data.texCoords| then data.texCoords[v.texCoordIndex] else Zero2,
           Zero3)
  }

  /** The vertices of the given triples, in order. */
  function BuildVertices(vs: seq<ObjVertex>, data: ObjData): (r: seq<Vertex>)
    requires forall v | v in vs :: v.positionIndex < |data.positions|
    ensures |r| == |vs|
    ensures forall k | 0 <= k < |vs| :: r[k] == BuildVertex(vs[k], data)
    ensures forall k | 0 <= k < |vs| :: r[k].position == data.positions[vs[k].positionIndex]
  {
    if vs == [] then []
    else BuildVertices(vs[..|vs| - 1], data) + [BuildVertex(vs[|vs| - 1], data)]
  }

  /**
   * A position-only face token (no `/`) gets the default texture coordinate
   * and normal, whatever the file holds, as long as fewer than 2^32 - 1 of
   * each were read.
   */
  lemma PositionOnlyTokenDefaults(token: string, data: ObjData, rd: Reader)
    requires token != [] && '/' !in token
    requires FaceVertex(token, rd).positionIndex < |data.positions|
    requires |data.texCoords| <= Two32 - 1 && |data.normals| <= Two32 - 1
    ensures BuildVertex(FaceVertex(token, rd), data).texCoords == Zero2
    ensures BuildVertex(FaceVertex(token, rd), data).normal == Up
  {
    PositionOnlyToken(token, rd);
  }

  lemma BuildVerticesAppend(vs: seq<ObjVertex>, x: ObjVertex, data: ObjData)
    requires forall v | v in vs :: v.positionIndex < |data.positions|
    requires x.positionIndex < |data.positions|
    ensures BuildVertices(vs + [x], data) == BuildVertices(vs, data) + [BuildVertex(x, data)]
  {
    assert (vs + [x])[..|vs|] == vs;
  }

  /** The map of the re-indexing loop: each triple seen, with its final index. */
  function SeenTable(seen: seq<ObjVertex>): (table: map<ObjVertex, U32>)
    ensures forall v :: v in table <==> v in seen
  {
    map v | v in seen :: Position(seen, v) % Two32
  }

  /** The vertices built from the first n triples. */
  function PrefixVertices(data: ObjData, n: nat): (r: seq<Vertex>)
    requires PositionsInRange(data) && n <= |data.faces|
    ensures |r| == |Distinct(data.faces[..n])|
  {
    DistinctMembers(data.faces[..n]);
    BuildVertices(Distinct(data.faces[..n]), data)
  }

  /** The final vertex list: one vertex per distinct triple. */
  function FinalVertices(data: ObjData): seq<Vertex>
    requires PositionsInRange(data)
  {
    DistinctMembers(data.faces);
    BuildVertices(Distinct(data.faces), data)
  }

  /**
   * A file without `vn` lines gives every vertex the normal (0, 1, 0), and
   * one without `vt` lines gives every vertex the texture coordinate (0, 0).
   */
  lemma FinalVerticesDefaults(data: ObjData)
    requires PositionsInRange(data)
    ensures data.normals == [] ==> forall x | x in FinalVertices(data) :: x.normal == Up
    ensures data.texCoords == [] ==> forall x | x in FinalVertices(data) :: x.texCoords == Zero2
  {
  }

  /** Placing one more triple keeps every earlier final index. */
  lemma IndicesStep(s: seq<ObjVertex>, n: nat)
    requires n < |s|
    ensures s[n] in Distinct(s[..n + 1])
    ensures Indices(s[..n + 1]) == Indices(s[..n]) + [Position(Distinct(s[..n + 1]), s[n]) % Two32]
  {
    var fs := s[..n];
    var x := s[n];
    assert s[..n + 1] == fs + [x];
    DistinctStep(s, n);
    DistinctMembers(fs);
    DistinctMembers(s[..n + 1]);
    var d := Distinct(fs);
    var d' := Distinct(fs + [x]);
    forall k | 0 <= k < n ensures Indices(fs + [x])[k] == Indices(fs)[k] {
      assert (fs + [x])[k] == fs[k];
      if x !in d {
        PositionAppend(d, x, fs[k]);
      }
    }
  }

  /** A triple seen before adds no vertex and repeats its final index. */
  lemma KnownStep(data: ObjData, n: nat)
    requires PositionsInRange(data) && n < |data.faces|
    requires data.faces[n] in Distinct(data.faces[..n])
    ensures PrefixVertices(data, n + 1) == PrefixVertices(data, n)
    ensures SeenTable(Distinct(data.faces[..n + 1])) == SeenTable(Distinct(data.faces[..n]))
    ensures Indices(data.faces[..n + 1]) == Indices(data.faces[..n]) + [SeenTable(Distinct(data.faces[..n]))[data.faces[n]]]
  {
    DistinctStep(data.faces, n);
    IndicesStep(data.faces, n);
  }

  /** A new triple adds its vertex and gets the next index. */
  lemma NewStep(data: ObjData, n: nat)
    requires PositionsInRange(data) && n < |data.faces|
    requires data.faces[n] !in Distinct(data.faces[..n])
    ensures data.faces[n].positionIndex < |data.positions|
    ensures PrefixVertices(data, n + 1) == PrefixVertices(data, n) + [BuildVertex(data.faces[n], data)]
    ensures var m := |PrefixVertices(data, n)| % Two32;
      SeenTable(Distinct(data.faces[..n + 1])) == SeenTable(Distinct(data.faces[..n]))[data.faces[n] := m] &&
      Indices(data.faces[..n + 1]) == Indices(data.faces[..n]) + [m]
  {
    var x := data.faces[n];
    var d := Distinct(data.faces[..n]);
    assert x in data.faces;
    DistinctStep(data.faces, n);
    DistinctMembers(data.faces[..n]);
    BuildVerticesAppend(d, x, data);
    IndicesStep(data.faces, n);
    PositionOfNew(d, x);
    TableAppend(d, x);
  }

  lemma TableAppend(d: seq<ObjVertex>, x: ObjVertex)
    requires x !in d
    ensures SeenTable(d + [x]) == SeenTable(d)[x := |d| % Two32]
  {
    PositionOfNew(d, x);
    forall v | v in d ensures Position(d + [x], v) == Position(d, v) {
      PositionAppend(d, x, v);
    }
  }

  /**
   * The re-indexing loop: a map from each triple already seen to its final
   * index; a new triple gets the next vertex, a known one its old index.
   */
  method Reindex(data: ObjData) returns (vertices: seq<Vertex>, indices: seq<U32>)
    requires PositionsInRange(data)
    ensures vertices == FinalVertices(data)
    ensures indices == Indices(data.faces)
  {
    vertices, indices := [], [];
    var uniqueVertices: map<ObjVertex, U32> := map[];
    assert data.faces[..0] == [];
    for n := 0 to |data.faces|
      invariant vertices == PrefixVertices(data, n)
      invariant uniqueVertices == SeenTable(Distinct(data.faces[..n]))
      invariant indices == Indices(data.faces[..n])
    {
      vertices, indices, uniqueVertices := PlaceTriple(data, n, vertices, indices, uniqueVertices);
    }
    assert data.faces[..|data.faces|] == data.faces;
  }

  /** One pass of the re-indexing loop: reuse the index of a known triple, or append a new vertex. */
  method PlaceTriple(data: ObjData, n: nat, vertices: seq<Vertex>, indices: seq<U32>, uniqueVertices: map<ObjVertex, U32>)
    returns (vertices': seq<Vertex>, indices': seq<U32>, uniqueVertices': map<ObjVertex, U32>)
    requires PositionsInRange(data) && n < |data.faces|
    requires vertices == PrefixVertices(data, n)
    requires uniqueVertices == SeenTable(Distinct(data.faces[..n]))
    requires indices == Indices(data.faces[..n])
    ensures vertices' == PrefixVertices(data, n + 1)
    ensures uniqueVertices' == SeenTable(Distinct(data.faces[..n + 1]))
    ensures indices' == Indices(data.faces[..n + 1])
  {
    var objVert := data.faces[n];
    if objVert in uniqueVertices {
      KnownStep(data, n);
      vertices', indices', uniqueVertices' := vertices, indices + [uniqueVertices[objVert]], uniqueVertices;
    } else {
      NewStep(data, n);
      var newVertex := BuildVertex(objVert, data);
      vertices' := vertices + [newVertex];
      var newIndex := (|vertices'| - 1) % Two32;
      indices' := indices + [newIndex];
      uniqueVertices' := uniqueVertices[objVert := newIndex];
    }
  }


  // ---------------------------------------------------------------------
  // Loading
  // ---------------------------------------------------------------------

  /** What a loaded file's single mesh holds. */
  function ObjVertices(content: string, rd: Reader): seq<Vertex>
    requires PositionsInRange(Parsed(content, rd))
  {
    FinalVertices(Parsed(content, rd))
  }

  /**
   * `ObjLoader::loadModel`. `file` is what reading the asset file gave: its
   * text, or the message of the exception that reading threw. A read
   * failure becomes the loader's own error; otherwise the result is a new
   * model holding exactly one mesh with the re-indexed data and a new
   * default material.
   */
  method LoadModel(file: Result<string, string>, rd: Reader) returns (r: Result<Model, string>)
    requires file.Success? ==> PositionsInRange(Parsed(file.value, rd))
    ensures file.Failure? ==> r == Failure("Falha ao carregar modelo OBJ: " + file.error)
    ensures file.Success? ==> r.Success? && fresh(r.value) && |r.value.meshes| == 1
    ensures file.Success? ==> (r.Success? && |r.value.meshes| == 1 &&
      var mesh := r.value.meshes[0];
      fresh(mesh) && mesh.vertices == ObjVertices(file.value, rd) &&
      mesh.indices == Indices(Parsed(file.value, rd).faces) &&
      mesh.material != null && fresh(mesh.material) && mesh.material.State() == Default)
  {
    if file.Failure? {
      return Failure("Falha ao carregar modelo OBJ: " + file.error);
    }
    var data := Parse(file.value, rd);
    var vertices, indices := Reindex(data);
    var model := new Model();
    var material := new Material();
    var mesh := new Mesh(vertices, indices, material);
    model.AddMesh(mesh);
    r := Success(model);
  }
}

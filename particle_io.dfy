/** The Monte-Carlo particle record and its persistence: the ASCII stream
    writer (`operator<<`), the stream constructor that reads it back, and the
    per-field arrays exported by `writeFields` and imported by `readFields`.

    The base `Particle<mcParticle>` part of a particle (position, cell, ...)
    belongs to the particle-tracking library: the writer receives the tokens the
    base class wrote, and the reader starts where the base class stopped. */
module ParticleIO {
  import opened Geometry

  datatype Option<T> = None | Some(value: T) {
    predicate IsFailure() { None? }
    function PropagateFailure<U>(): Option<U> requires None? { None }
    function Extract(): T requires Some? { value }
  }

  /** The nine fields an mcParticle adds to its base particle, in declaration order. */
  datatype McParticle = McParticle(
    m: real,            // mass
    uPdf: Vector,       // velocity carried by the PDF method
    uParticle: Vector,  // instantaneous particle velocity
    uFap: Vector,       // filtered velocity estimate
    z: real,            // scalar state
    rho: real,          // density
    dt: real,           // local time step
    shift: Vector,      // displacement used for boundary correction
    ghostFlag: int)         // provisional-particle flag

  // ---------------------------------------------------------------------------
  // ASCII token stream

  /** What an OpenFOAM ASCII stream carries: white space, the list delimiters
      that enclose a vector, floating-point numbers and integer labels. */
  datatype Token = Space | BeginList | EndList | Number(value: real) | Label(n: int)

  function ScalarText(x: real): seq<Token> { [Number(x)] }

  function LabelText(n: int): seq<Token> { [Label(n)] }

  /** A vector is written as `(x y z)`. */
  function VectorText(v: Vector): seq<Token>
  {
    [BeginList, Number(v.x), Space, Number(v.y), Space, Number(v.z), EndList]
  }

  /** One field as `operator<<` emits it: a single space, then the value. */
  function Sep(t: seq<Token>): seq<Token> { [Space] + t }

  /** Everything `operator<<` writes after the base particle, in the order
      m, Updf, UParticle, UFap, z, rho, dt, shift, ghost. */
  function OwnText(p: McParticle): seq<Token>
  {
    Sep(ScalarText(p.m)) + (Sep(VectorText(p.uPdf)) + (Sep(VectorText(p.uParticle)) +
    (Sep(VectorText(p.uFap)) + (Sep(ScalarText(p.z)) + (Sep(ScalarText(p.rho)) +
    (Sep(ScalarText(p.dt)) + (Sep(VectorText(p.shift)) + Sep(LabelText(p.ghostFlag)))))))))
  }

  /** The input stream skips white space before every token it reads. */
  function SkipSpaces(ts: seq<Token>): (r: seq<Token>)
    ensures |r| <= |ts|
    ensures r == [] || r[0] != Space
  {
    if |ts| > 0 && ts[0] == Space then SkipSpaces(ts[1..]) else ts
  }

  /** Skipping removes exactly the leading white space: what is left is a
      suffix of the input, and every token dropped before it is a space. */
  lemma {:induction false} SkipMeaning(ts: seq<Token>)
    ensures SkipSpaces(ts) == ts[|ts| - |SkipSpaces(ts)|..]
    ensures forall i :: 0 <= i < |ts| - |SkipSpaces(ts)| ==> ts[i] == Space
  {
    if |ts| > 0 && ts[0] == Space {
      SkipMeaning(ts[1..]);
    }
  }

  /** A value read from the stream and the tokens left after it. */
  datatype Read<T> = Read(value: T, rest: seq<Token>)

  /** `is >> scalar` (and `readScalar(is)`): any number token, a label included. */
  function ScalarIn(ts: seq<Token>): (r: Option<Read<real>>)
    ensures r.Some? ==> |r.value.rest| < |ts|
    ensures r.None? ==> SkipSpaces(ts) == [] || !(SkipSpaces(ts)[0].Number? || SkipSpaces(ts)[0].Label?)
  {
    var t := SkipSpaces(ts);
    if t != [] && t[0].Number? then Some(Read(t[0].value, t[1..]))
    else if t != [] && t[0].Label? then Some(Read(t[0].n as real, t[1..]))
    else None
  }

  /** `is >> label`: only an integer token is accepted. */
  function LabelIn(ts: seq<Token>): (r: Option<Read<int>>)
    ensures r.Some? ==> |r.value.rest| < |ts|
    ensures r.None? ==> SkipSpaces(ts) == [] || !SkipSpaces(ts)[0].Label?
  {
    var t := SkipSpaces(ts);
    if t != [] && t[0].Label? then Some(Read(t[0].n, t[1..])) else None
  }

  /** `is >> vector`: an opening delimiter, three scalars, a closing delimiter. */
  function VectorIn(ts: seq<Token>): (r: Option<Read<Vector>>)
    ensures r.Some? ==> |r.value.rest| < |ts|
  {
    var t := SkipSpaces(ts);
    if t == [] || t[0] != BeginList then None
    else
      var x :- ScalarIn(t[1..]);
      var y :- ScalarIn(x.rest);
      var z :- ScalarIn(y.rest);
      var u := SkipSpaces(z.rest);
      if u == [] || u[0] != EndList then None
      else Some(Read(Vector(x.value, y.value, z.value), u[1..]))
  }

  /** What the stream constructor reads after the base particle: the nine
      fields in the order `operator<<` writes them; None where a read fails. */
  function DecodeOwn(ts: seq<Token>): (r: Option<Read<McParticle>>)
    ensures r.Some? ==> |r.value.rest| < |ts|
  {
    var m :- ScalarIn(ts);
    var uPdf :- VectorIn(m.rest);
    var uParticle :- VectorIn(uPdf.rest);
    var uFap :- VectorIn(uParticle.rest);
    var z :- ScalarIn(uFap.rest);
    var rho :- ScalarIn(z.rest);
    var dt :- ScalarIn(rho.rest);
    var shift :- VectorIn(dt.rest);
    var ghostFlag :- LabelIn(shift.rest);
    Some(Read(McParticle(m.value, uPdf.value, uParticle.value, uFap.value,
                         z.value, rho.value, dt.value, shift.value, ghostFlag.value),
              ghostFlag.rest))
  }

  lemma ScalarBack(x: real, rest: seq<Token>)
    ensures ScalarIn(Sep(ScalarText(x)) + rest) == Some(Read(x, rest))
  {
    var ts := Sep(ScalarText(x)) + rest;
    assert ts[1..] == ScalarText(x) + rest;
    assert SkipSpaces(ts) == ts[1..];
  }

  lemma LabelBack(n: int, rest: seq<Token>)
    ensures LabelIn(Sep(LabelText(n)) + rest) == Some(Read(n, rest))
  {
    var ts := Sep(LabelText(n)) + rest;
    assert ts[1..] == LabelText(n) + rest;
    assert SkipSpaces(ts) == ts[1..];
  }

  lemma VectorBack(v: Vector, rest: seq<Token>)
    ensures VectorIn(Sep(VectorText(v)) + rest) == Some(Read(v, rest))
  {
    var r3 := [EndList] + rest;
    var r2 := Sep(ScalarText(v.z)) + r3;
    var r1 := Sep(ScalarText(v.y)) + r2;
    var r0 := [Number(v.x)] + r1;
    VectorTextShape(v, rest, r0, r1, r2, r3);
    var t := SkipSpaces(Sep(VectorText(v)) + rest);
    assert t == [BeginList] + r0 by {
      assert SkipSpaces([Space] + ([BeginList] + r0)) == [BeginList] + r0;
    }
    assert t[1..] == r0;
    assert ScalarIn(r0) == Some(Read(v.x, r1)) by {
      assert SkipSpaces(r0) == r0;
      assert r0[1..] == r1;
    }
    ScalarBack(v.y, r2);
    ScalarBack(v.z, r3);
    assert SkipSpaces(r3) == r3 && r3[1..] == rest;
  }

  /** The text of a vector, split at the tokens VectorBack reads one by one. */
  lemma VectorTextShape(v: Vector, rest: seq<Token>, r0: seq<Token>, r1: seq<Token>,
                        r2: seq<Token>, r3: seq<Token>)
    requires r3 == [EndList] + rest && r2 == Sep(ScalarText(v.z)) + r3
    requires r1 == Sep(ScalarText(v.y)) + r2 && r0 == [Number(v.x)] + r1
    ensures Sep(VectorText(v)) + rest == [Space] + ([BeginList] + r0)
  {
  }

  /** ASCII round trip: the stream constructor reads back exactly the nine
      fields `operator<<` wrote, and leaves whatever follows them unread. */
  lemma {:induction false} RoundTrip(p: McParticle, rest: seq<Token>)
    ensures DecodeOwn(OwnText(p) + rest) == Some(Read(p, rest))
  {
    var x8 := Sep(LabelText(p.ghostFlag));
    var x7 := Sep(VectorText(p.shift)) + x8;
    var x6 := Sep(ScalarText(p.dt)) + x7;
    var x5 := Sep(ScalarText(p.rho)) + x6;
    var x4 := Sep(ScalarText(p.z)) + x5;
    var x3 := Sep(VectorText(p.uFap)) + x4;
    var x2 := Sep(VectorText(p.uParticle)) + x3;
    var x1 := Sep(VectorText(p.uPdf)) + x2;
    assert OwnText(p) == Sep(ScalarText(p.m)) + x1;
    var r8 := x8 + rest;
    var r7 := Sep(VectorText(p.shift)) + r8;
    var r6 := Sep(ScalarText(p.dt)) + r7;
    var r5 := Sep(ScalarText(p.rho)) + r6;
    var r4 := Sep(ScalarText(p.z)) + r5;
    var r3 := Sep(VectorText(p.uFap)) + r4;
    var r2 := Sep(VectorText(p.uParticle)) + r3;
    var r1 := Sep(VectorText(p.uPdf)) + r2;
    Assoc(Sep(VectorText(p.shift)), x8, rest);
    Assoc(Sep(ScalarText(p.dt)), x7, rest);
    Assoc(Sep(ScalarText(p.rho)), x6, rest);
    Assoc(Sep(ScalarText(p.z)), x5, rest);
    Assoc(Sep(VectorText(p.uFap)), x4, rest);
    Assoc(Sep(VectorText(p.uParticle)), x3, rest);
    Assoc(Sep(VectorText(p.uPdf)), x2, rest);
    Assoc(Sep(ScalarText(p.m)), x1, rest);
    LabelBack(p.ghostFlag, rest);
    VectorBack(p.shift, r8);
    ScalarBack(p.dt, r7);
    ScalarBack(p.rho, r6);
    ScalarBack(p.z, r5);
    VectorBack(p.uFap, r4);
    VectorBack(p.uParticle, r3);
    VectorBack(p.uPdf, r2);
    ScalarBack(p.m, r1);
    DecodeSteps(OwnText(p) + rest, p, r1, r2, r3, r4, r5, r6, r7, r8, rest);
  }

  lemma Assoc(a: seq<Token>, b: seq<Token>, c: seq<Token>)
    ensures (a + b) + c == a + (b + c)
  {
  }

  /** DecodeOwn chains its nine reads. */
  lemma DecodeSteps(ts: seq<Token>, p: McParticle,
                    r1: seq<Token>, r2: seq<Token>, r3: seq<Token>, r4: seq<Token>,
                    r5: seq<Token>, r6: seq<Token>, r7: seq<Token>, r8: seq<Token>,
                    rest: seq<Token>)
    requires ScalarIn(ts) == Some(Read(p.m, r1))
    requires VectorIn(r1) == Some(Read(p.uPdf, r2))
    requires VectorIn(r2) == Some(Read(p.uParticle, r3))
    requires VectorIn(r3) == Some(Read(p.uFap, r4))
    requires ScalarIn(r4) == Some(Read(p.z, r5))
    requires ScalarIn(r5) == Some(Read(p.rho, r6))
    requires ScalarIn(r6) == Some(Read(p.dt, r7))
    requires VectorIn(r7) == Some(Read(p.shift, r8))
    requires LabelIn(r8) == Some(Read(p.ghostFlag, rest))
    ensures DecodeOwn(ts) == Some(Read(p, rest))
  {
  }

  /** The numeric value a single token carries, if any. */
  function TokenNumbers(t: Token): seq<real>
  {
    match t
    case Number(x) => [x]
    case Label(n) => [n as real]
    case _ => []
  }

  /** The numeric values of a token sequence, in stream order. */
  function Numbers(ts: seq<Token>): seq<real>
  {
    if ts == [] then [] else TokenNumbers(ts[0]) + Numbers(ts[1..])
  }

  lemma NumbersCons(t: Token, s: seq<Token>)
    ensures Numbers([t] + s) == TokenNumbers(t) + Numbers(s)
  {
    assert ([t] + s)[1..] == s;
  }

  lemma {:induction false} NumbersAppend(a: seq<Token>, b: seq<Token>)
    ensures Numbers(a + b) == Numbers(a) + Numbers(b)
  {
    if a != [] {
      assert a + b == [a[0]] + (a[1..] + b);
      assert a == [a[0]] + a[1..];
      NumbersCons(a[0], a[1..] + b);
      NumbersCons(a[0], a[1..]);
      NumbersAppend(a[1..], b);
    } else {
      assert a + b == b;
    }
  }

  /** The seventeen numbers of a particle record in declaration order. */
  function Values(p: McParticle): seq<real>
  {
    [p.m] + (VectorValues(p.uPdf) + (VectorValues(p.uParticle) + (VectorValues(p.uFap) +
    ([p.z] + ([p.rho] + ([p.dt] + (VectorValues(p.shift) + [p.ghostFlag as real])))))))
  }

  function VectorValues(v: Vector): seq<real> { [v.x, v.y, v.z] }

  lemma VectorNumbers(v: Vector)
    ensures Numbers(Sep(VectorText(v))) == VectorValues(v)
  {
    NumbersCons(EndList, []);
    NumbersCons(Number(v.z), [EndList]);
    NumbersCons(Space, [Number(v.z), EndList]);
    NumbersCons(Number(v.y), [Space, Number(v.z), EndList]);
    NumbersCons(Space, [Number(v.y), Space, Number(v.z), EndList]);
    NumbersCons(Number(v.x), [Space, Number(v.y), Space, Number(v.z), EndList]);
    NumbersCons(BeginList, [Number(v.x), Space, Number(v.y), Space, Number(v.z), EndList]);
    NumbersCons(Space, VectorText(v));
  }

  lemma ScalarNumbers(x: real)
    ensures Numbers(Sep(ScalarText(x))) == [x]
  {
    NumbersCons(Number(x), []);
    NumbersCons(Space, [Number(x)]);
  }

  lemma LabelNumbers(n: int)
    ensures Numbers(Sep(LabelText(n))) == [n as real]
  {
    NumbersCons(Label(n), []);
    NumbersCons(Space, [Label(n)]);
  }

  /** The writer emits the record's values in declaration order, each field
      introduced by a space. */
  lemma WrittenInOrder(p: McParticle)
    ensures Numbers(OwnText(p)) == Values(p)
    ensures OwnText(p)[0] == Space
  {
    var x8 := Sep(LabelText(p.ghostFlag));
    var x7 := Sep(VectorText(p.shift)) + x8;
    var x6 := Sep(ScalarText(p.dt)) + x7;
    var x5 := Sep(ScalarText(p.rho)) + x6;
    var x4 := Sep(ScalarText(p.z)) + x5;
    var x3 := Sep(VectorText(p.uFap)) + x4;
    var x2 := Sep(VectorText(p.uParticle)) + x3;
    var x1 := Sep(VectorText(p.uPdf)) + x2;
    LabelNumbers(p.ghostFlag);
    VectorNumbers(p.shift); NumbersAppend(Sep(VectorText(p.shift)), x8);
    ScalarNumbers(p.dt); NumbersAppend(Sep(ScalarText(p.dt)), x7);
    ScalarNumbers(p.rho); NumbersAppend(Sep(ScalarText(p.rho)), x6);
    ScalarNumbers(p.z); NumbersAppend(Sep(ScalarText(p.z)), x5);
    VectorNumbers(p.uFap); NumbersAppend(Sep(VectorText(p.uFap)), x4);
    VectorNumbers(p.uParticle); NumbersAppend(Sep(VectorText(p.uParticle)), x3);
    VectorNumbers(p.uPdf); NumbersAppend(Sep(VectorText(p.uPdf)), x2);
    ScalarNumbers(p.m); NumbersAppend(Sep(ScalarText(p.m)), x1);
  }

  /** The output stream: the tokens written so far. */
  class OStream {
    var tokens: seq<Token>

    constructor ()
      ensures tokens == []
    {
      tokens := [];
    }

    method Write(t: seq<Token>)
      modifies this
      ensures tokens == old(tokens) + t
    {
      tokens := tokens + t;
    }
  }

  /** `operator<<(Ostream&, const mcParticle&)`, ASCII branch: the base
      particle, then each own field after a single space. */
  method WriteParticle(os: OStream, baseText: seq<Token>, p: McParticle)
    modifies os
    ensures os.tokens == old(os.tokens) + baseText + OwnText(p)
  {
    os.Write(baseText);
    os.Write(Sep(ScalarText(p.m)));
    os.Write(Sep(VectorText(p.uPdf)));
    os.Write(Sep(VectorText(p.uParticle)));
    os.Write(Sep(VectorText(p.uFap)));
    os.Write(Sep(ScalarText(p.z)));
    os.Write(Sep(ScalarText(p.rho)));
    os.Write(Sep(ScalarText(p.dt)));
    os.Write(Sep(VectorText(p.shift)));
    os.Write(Sep(LabelText(p.ghostFlag)));
  }

  /** The input stream: the tokens not yet consumed. */
  class IStream {
    var rest: seq<Token>

    constructor (ts: seq<Token>)
      ensures rest == ts
    {
      rest := ts;
    }

    method SkipSpace()
      modifies this
      ensures rest == SkipSpaces(old(rest))
    {
      while rest != [] && rest[0] == Space
        invariant SkipSpaces(rest) == SkipSpaces(old(rest))
        decreases |rest|
      {
        rest := rest[1..];
      }
    }

    method ReadScalar() returns (x: Option<real>)
      modifies this
      ensures x.Some? <==> ScalarIn(old(rest)).Some?
      ensures x.Some? ==> ScalarIn(old(rest)) == Some(Read(x.value, rest))
    {
      SkipSpace();
      if rest != [] && rest[0].Number? {
        x := Some(rest[0].value);
        rest := rest[1..];
      } else if rest != [] && rest[0].Label? {
        x := Some(rest[0].n as real);
        rest := rest[1..];
      } else {
        x := None;
      }
    }

    method ReadLabel() returns (n: Option<int>)
      modifies this
      ensures n.Some? <==> LabelIn(old(rest)).Some?
      ensures n.Some? ==> LabelIn(old(rest)) == Some(Read(n.value, rest))
    {
      SkipSpace();
      if rest != [] && rest[0].Label? {
        n := Some(rest[0].n);
        rest := rest[1..];
      } else {
        n := None;
      }
    }

    method ReadVector() returns (v: Option<Vector>)
      modifies this
      ensures v.Some? <==> VectorIn(old(rest)).Some?
      ensures v.Some? ==> VectorIn(old(rest)) == Some(Read(v.value, rest))
    {
      SkipSpace();
      if rest == [] || rest[0] != BeginList {
        return None;
      }
      rest := rest[1..];
      var x := ReadScalar();
      if x.None? { return None; }
      var y := ReadScalar();
      if y.None? { return None; }
      var z := ReadScalar();
      if z.None? { return None; }
      SkipSpace();
      if rest == [] || rest[0] != EndList {
        return None;
      }
      rest := rest[1..];
      v := Some(Vector(x.value, y.value, z.value));
    }
  }

  /** What the stream constructor leaves in the particle's own fields: the
      fields it read, nothing (when asked not to read fields), or a fatal
      stream error raised by `is.check`. */
  datatype Construction = Fields(p: McParticle) | NoFields | Fatal

  /** `mcParticle(const Cloud&, Istream&, bool readFields)`, ASCII branch,
      entered after the base constructor has consumed the base particle. */
  method Construct(input: IStream, readFields: bool) returns (c: Construction)
    modifies input
    ensures !readFields ==> c == NoFields && input.rest == old(input.rest)
    ensures readFields && DecodeOwn(old(input.rest)).None? ==> c == Fatal
    ensures readFields && DecodeOwn(old(input.rest)).Some? ==>
              c == Fields(DecodeOwn(old(input.rest)).value.value) &&
              input.rest == DecodeOwn(old(input.rest)).value.rest
  {
    if !readFields {
      return NoFields;
    }
    var m := input.ReadScalar();
    if m.None? { return Fatal; }
    var uPdf := input.ReadVector();
    if uPdf.None? { return Fatal; }
    var uParticle := input.ReadVector();
    if uParticle.None? { return Fatal; }
    var uFap := input.ReadVector();
    if uFap.None? { return Fatal; }
    var z := input.ReadScalar();
    if z.None? { return Fatal; }
    var rho := input.ReadScalar();
    if rho.None? { return Fatal; }
    var dt := input.ReadScalar();
    if dt.None? { return Fatal; }
    var shift := input.ReadVector();
    if shift.None? { return Fatal; }
    var ghostFlag := input.ReadLabel();
    if ghostFlag.None? { return Fatal; }
    c := Fields(McParticle(m.value, uPdf.value, uParticle.value, uFap.value,
                           z.value, rho.value, dt.value, shift.value, ghostFlag.value));
  }

  // ---------------------------------------------------------------------------
  // Per-field arrays of a cloud

  /** The cloud of particles, in iteration order. */
  class Cloud {
    var particles: seq<McParticle>

    constructor (ps: seq<McParticle>)
      ensures particles == ps
    {
      particles := ps;
    }
  }

  /** The six per-field arrays `m`, `Updf`, `UParticle`, `UFap`, `z`, `rho`. */
  datatype FieldFiles = FieldFiles(m: seq<real>, uPdf: seq<Vector>, uParticle: seq<Vector>,
                                   uFap: seq<Vector>, z: seq<real>, rho: seq<real>)

  /** Result of `readFields`: success, or the size check of
      `checkFieldIOobject` failing for the named field. */
  datatype Outcome = Pass | SizeMismatch(field: string, size: nat, expected: nat)

  /** Every array holds one entry per particle. */
  predicate Fits(f: FieldFiles, n: nat)
  {
    |f.m| == n && |f.uPdf| == n && |f.uParticle| == n &&
    |f.uFap| == n && |f.z| == n && |f.rho| == n
  }

  /** The field names, in the order `readFields` checks them. */
  const Names: seq<string> := ["m", "Updf", "UParticle", "UFap", "z", "rho"]

  /** The sizes of the six arrays, in the same order. */
  function Sizes(f: FieldFiles): (s: seq<nat>)
    ensures |s| == |Names|
  {
    [|f.m|, |f.uPdf|, |f.uParticle|, |f.uFap|, |f.z|, |f.rho|]
  }

  /** The checks `readFields` makes, in its order: the first array whose size
      differs from the cloud's is reported, with its name and size. */
  function CheckFields(f: FieldFiles, n: nat): (r: Outcome)
    ensures r == Pass <==> Fits(f, n)
    ensures r.SizeMismatch? ==>
              exists j :: 0 <= j < |Names| && r == SizeMismatch(Names[j], Sizes(f)[j], n) &&
                          Sizes(f)[j] != n && forall i :: 0 <= i < j ==> Sizes(f)[i] == n
  {
    var sizes := Sizes(f);
    assert sizes == [|f.m|, |f.uPdf|, |f.uParticle|, |f.uFap|, |f.z|, |f.rho|];
    assert Names[0] == "m" && Names[1] == "Updf" && Names[2] == "UParticle" &&
           Names[3] == "UFap" && Names[4] == "z" && Names[5] == "rho";
    if |f.m| != n then SizeMismatch("m", |f.m|, n)
    else if |f.uPdf| != n then SizeMismatch("Updf", |f.uPdf|, n)
    else if |f.uParticle| != n then SizeMismatch("UParticle", |f.uParticle|, n)
    else if |f.uFap| != n then SizeMismatch("UFap", |f.uFap|, n)
    else if |f.z| != n then SizeMismatch("z", |f.z|, n)
    else if |f.rho| != n then SizeMismatch("rho", |f.rho|, n)
    else Pass
  }

  /** Particle `p` after `readFields` has given it entry `i` of each array. */
  function Restored(p: McParticle, f: FieldFiles, i: nat): McParticle
    requires i < |f.m| && i < |f.uPdf| && i < |f.uParticle| &&
             i < |f.uFap| && i < |f.z| && i < |f.rho|
  {
    p.(m := f.m[i], uPdf := f.uPdf[i], uParticle := f.uParticle[i], uFap := f.uFap[i],
       z := f.z[i], rho := f.rho[i], shift := Zero, ghostFlag := 0)
  }

  /** The cloud `readFields` leaves behind: entry i of each array in particle i,
      shift and ghost reset, dt kept. */
  function Imported(ps: seq<McParticle>, f: FieldFiles): (r: seq<McParticle>)
    requires Fits(f, |ps|)
    ensures |r| == |ps|
    ensures forall i :: 0 <= i < |ps| ==>
              r[i].m == f.m[i] && r[i].uPdf == f.uPdf[i] && r[i].uParticle == f.uParticle[i] &&
              r[i].uFap == f.uFap[i] && r[i].z == f.z[i] && r[i].rho == f.rho[i]
    ensures forall i :: 0 <= i < |ps| ==> r[i].shift == Zero && r[i].ghostFlag == 0
    ensures forall i :: 0 <= i < |ps| ==> r[i].dt == ps[i].dt
  {
    seq(|ps|, i requires 0 <= i < |ps| => Restored(ps[i], f, i))
  }

  /** The arrays `writeFields` fills: entry i of each is particle i's field. */
  function Exported(ps: seq<McParticle>): (f: FieldFiles)
    ensures Fits(f, |ps|)
    ensures forall i :: 0 <= i < |ps| ==>
              f.m[i] == ps[i].m && f.uPdf[i] == ps[i].uPdf && f.uParticle[i] == ps[i].uParticle &&
              f.uFap[i] == ps[i].uFap && f.z[i] == ps[i].z && f.rho[i] == ps[i].rho
  {
    FieldFiles(seq(|ps|, i requires 0 <= i < |ps| => ps[i].m),
               seq(|ps|, i requires 0 <= i < |ps| => ps[i].uPdf),
               seq(|ps|, i requires 0 <= i < |ps| => ps[i].uParticle),
               seq(|ps|, i requires 0 <= i < |ps| => ps[i].uFap),
               seq(|ps|, i requires 0 <= i < |ps| => ps[i].z),
               seq(|ps|, i requires 0 <= i < |ps| => ps[i].rho))
  }

  /** Particles that agree on the six exported fields. */
  predicate SameExported(p: McParticle, q: McParticle)
  {
    p.m == q.m && p.uPdf == q.uPdf && p.uParticle == q.uParticle &&
    p.uFap == q.uFap && p.z == q.z && p.rho == q.rho
  }

  /** dt, shift and ghost are not exported: clouds that differ only in them
      produce the same arrays. */
  lemma ExportIgnoresTransient(ps: seq<McParticle>, qs: seq<McParticle>)
    requires |ps| == |qs|
    requires forall i :: 0 <= i < |ps| ==> SameExported(ps[i], qs[i])
    ensures Exported(ps) == Exported(qs)
  {
    var f, g := Exported(ps), Exported(qs);
    assert f.m == g.m && f.uPdf == g.uPdf && f.uParticle == g.uParticle;
    assert f.uFap == g.uFap && f.z == g.z && f.rho == g.rho;
  }

  /** writeFields then readFields into a cloud with the same particle order
      restores the six exported fields, keeps each particle's dt and resets
      shift and ghost. */
  lemma ImportAfterExport(ps: seq<McParticle>, qs: seq<McParticle>)
    requires |ps| == |qs|
    ensures Fits(Exported(ps), |qs|)
    ensures forall i :: 0 <= i < |qs| ==>
              Imported(qs, Exported(ps))[i] == ps[i].(dt := qs[i].dt, shift := Zero, ghostFlag := 0)
  {
  }

  /** On a cloud whose shift and ghost are already reset, writing then reading
      the fields changes nothing. */
  lemma ExportImportIdentity(ps: seq<McParticle>)
    requires forall i :: 0 <= i < |ps| ==> ps[i].shift == Zero && ps[i].ghostFlag == 0
    ensures Fits(Exported(ps), |ps|)
    ensures Imported(ps, Exported(ps)) == ps
  {
    var r := Imported(ps, Exported(ps));
    forall i | 0 <= i < |ps| ensures r[i] == ps[i] {
      ImportAfterExport(ps, ps);
    }
  }

  /** Reading the same arrays twice is the same as reading them once. */
  lemma ImportIdempotent(ps: seq<McParticle>, f: FieldFiles)
    requires Fits(f, |ps|)
    ensures Fits(f, |Imported(ps, f)|)
    ensures Imported(Imported(ps, f), f) == Imported(ps, f)
  {
    var once := Imported(ps, f);
    var twice := Imported(once, f);
    forall i | 0 <= i < |ps| ensures twice[i] == once[i] {
    }
  }

  /** `mcParticle::readFields(Cloud&)`: an empty cloud returns at once; otherwise
      every array is size-checked, in order, before any particle is touched,
      and then particle i receives entry i of each array. */
  method ReadFields(c: Cloud, f: FieldFiles) returns (r: Outcome)
    modifies c
    ensures |old(c.particles)| == 0 ==> r == Pass && c.particles == old(c.particles)
    ensures |old(c.particles)| > 0 ==> r == CheckFields(f, |old(c.particles)|)
    ensures r != Pass ==> c.particles == old(c.particles)
    ensures |old(c.particles)| > 0 && r == Pass ==>
              Fits(f, |old(c.particles)|) && c.particles == Imported(old(c.particles), f)
  {
    var n := |c.particles|;
    if n == 0 {
      return Pass;
    }
    if |f.m| != n { return SizeMismatch("m", |f.m|, n); }
    if |f.uPdf| != n { return SizeMismatch("Updf", |f.uPdf|, n); }
    if |f.uParticle| != n { return SizeMismatch("UParticle", |f.uParticle|, n); }
    if |f.uFap| != n { return SizeMismatch("UFap", |f.uFap|, n); }
    if |f.z| != n { return SizeMismatch("z", |f.z|, n); }
    if |f.rho| != n { return SizeMismatch("rho", |f.rho|, n); }
    var i := 0;
    while i < n
      invariant 0 <= i <= n && |c.particles| == n
      invariant forall k :: 0 <= k < i ==> c.particles[k] == Restored(old(c.particles)[k], f, k)
      invariant forall k :: i <= k < n ==> c.particles[k] == old(c.particles)[k]
    {
      c.particles := c.particles[i := Restored(c.particles[i], f, i)];
      i := i + 1;
    }
    r := Pass;
  }

  /** Arrays of the cloud's size whose entry i is particle i's field are the
      exported arrays. */
  lemma ExportedByEntries(ps: seq<McParticle>, f: FieldFiles)
    requires Fits(f, |ps|)
    requires forall k :: 0 <= k < |ps| ==> f.m[k] == ps[k].m && f.uPdf[k] == ps[k].uPdf
    requires forall k :: 0 <= k < |ps| ==> f.uParticle[k] == ps[k].uParticle && f.uFap[k] == ps[k].uFap
    requires forall k :: 0 <= k < |ps| ==> f.z[k] == ps[k].z && f.rho[k] == ps[k].rho
    ensures f == Exported(ps)
  {
    var e := Exported(ps);
    assert f.m == e.m && f.uPdf == e.uPdf && f.uParticle == e.uParticle;
    assert f.uFap == e.uFap && f.z == e.z && f.rho == e.rho;
  }

  /** `mcParticle::writeFields(const Cloud&)`: six arrays of the cloud's size,
      entry i holding particle i's field. */
  method WriteFields(c: Cloud) returns (f: FieldFiles)
    ensures Fits(f, |c.particles|)
    ensures f == Exported(c.particles)
  {
    var ps := c.particles;
    var np := |ps|;
    var m := new real[np];
    var uPdf := new Vector[np];
    var uParticle := new Vector[np];
    var uFap := new Vector[np];
    var z := new real[np];
    var rho := new real[np];
    var i := 0;
    while i < np
      invariant 0 <= i <= np
      invariant forall k :: 0 <= k < i ==> m[k] == ps[k].m && uPdf[k] == ps[k].uPdf &&
                                           uParticle[k] == ps[k].uParticle && uFap[k] == ps[k].uFap &&
                                           z[k] == ps[k].z && rho[k] == ps[k].rho
    {
      var p := ps[i];
      m[i], uPdf[i], uParticle[i], uFap[i], z[i], rho[i] := p.m, p.uPdf, p.uParticle, p.uFap, p.z, p.rho;
      i := i + 1;
    }
    f := FieldFiles(m[..], uPdf[..], uParticle[..], uFap[..], z[..], rho[..]);
    ExportedByEntries(ps, f);
  }
}

/**
 * Section properties (frame/section.py): `ordered_args`, which merges
 * positional and keyword arguments into one positional list following a
 * table of parameter names; `mandate`, which calls a section function with
 * that list; the shape table of `properties`; and `h_properties`.
 *
 * Python's floats are modelled as reals. `math.pi` is the exact value of
 * the double it denotes.
 */
module Section {
  import opened Wrappers
  import opened Sequences

  type Name = string

  /** `s[n:]`: empty once `n` passes the end. */
  function Drop<X>(s: seq<X>, n: nat): seq<X>
  {
    if n <= |s| then s[n..] else []
  }

  /** The names of `names` that `kwargs` supplies, in the order of `names`. */
  function TakenNames<T>(names: seq<Name>, kwargs: map<Name, T>): (r: seq<Name>)
    ensures forall k {:trigger k in r} :: k in r <==> k in names && k in kwargs
    ensures forall i :: 0 <= i < |r| ==> r[i] in names && r[i] in kwargs
    ensures |r| <= |names|
  {
    if names == [] then []
    else
      var rest := TakenNames(names[1..], kwargs);
      assert forall k :: k in names <==> k == names[0] || k in names[1..];
      if names[0] in kwargs then [names[0]] + rest else rest
  }

  /** `kwargs[key]` for every key of `names` that is present, in the order of `names`. */
  function KeywordValues<T>(names: seq<Name>, kwargs: map<Name, T>): (r: seq<T>)
    ensures |r| == |TakenNames(names, kwargs)|
    ensures forall i :: 0 <= i < |r| ==> TakenNames(names, kwargs)[i] in kwargs && r[i] == kwargs[TakenNames(names, kwargs)[i]]
  {
    if names == [] then []
    else if names[0] in kwargs then [kwargs[names[0]]] + KeywordValues(names[1..], kwargs)
    else KeywordValues(names[1..], kwargs)
  }

  /**
   * `ordered_args(arg_names, *args, **kwargs)`: the positional arguments
   * unchanged, then the keyword values of the remaining names that are
   * supplied, in table order.
   */
  function OrderedArgs<T>(argNames: seq<Name>, args: seq<T>, kwargs: map<Name, T>): (r: seq<T>)
    ensures |r| == |args| + |TakenNames(Drop(argNames, |args|), kwargs)|
    ensures r[..|args|] == args
    ensures forall i :: 0 <= i < |TakenNames(Drop(argNames, |args|), kwargs)| ==>
      r[|args| + i] == kwargs[TakenNames(Drop(argNames, |args|), kwargs)[i]]
  {
    args + KeywordValues(Drop(argNames, |args|), kwargs)
  }

  /** `mandate(func, arg_names, *args, **kwargs)` */
  function Mandate<T, R>(func: seq<T> -> R, argNames: seq<Name>, args: seq<T>, kwargs: map<Name, T>): R
  {
    func(OrderedArgs(argNames, args, kwargs))
  }

  /** The supplied names are taken in table order: positions in `names` increase. */
  lemma {:induction false} TakenNamesOrdered<T>(names: seq<Name>, kwargs: map<Name, T>)
    requires NoDup(names)
    ensures forall i, j :: 0 <= i < j < |TakenNames(names, kwargs)| ==>
      IndexOf(names, TakenNames(names, kwargs)[i]).value < IndexOf(names, TakenNames(names, kwargs)[j]).value
  {
    if names != [] {
      var rest := TakenNames(names[1..], kwargs);
      TakenNamesOrdered(names[1..], kwargs);
      forall k | k in names[1..] ensures IndexOf(names, k) == Some(IndexOf(names[1..], k).value + 1) {
        assert names == [names[0]] + names[1..];
        IndexOfConcat([names[0]], names[1..], k);
      }
      assert IndexOf(names, names[0]) == Some(0);
    }
  }

  /** With distinct names, `ordered_args` passes one value per supplied remaining name. */
  lemma {:induction false} TakenNamesCount<T>(names: seq<Name>, kwargs: map<Name, T>)
    requires NoDup(names)
    ensures |TakenNames(names, kwargs)| == |set k | k in names && k in kwargs|
  {
    if names == [] {
      assert (set k | k in names && k in kwargs) == {};
    } else {
      var n := names[0];
      var tail := set k | k in names[1..] && k in kwargs;
      TakenNamesCount(names[1..], kwargs);
      assert n !in names[1..];
      if n in kwargs {
        assert (set k | k in names && k in kwargs) == {n} + tail;
      } else {
        assert (set k | k in names && k in kwargs) == tail;
      }
    }
  }

  /**
   * The number of values `ordered_args` yields: the positional ones plus
   * one for each remaining name that `kwargs` supplies.
   */
  lemma OrderedArgsCount<T>(argNames: seq<Name>, args: seq<T>, kwargs: map<Name, T>)
    requires NoDup(argNames)
    ensures |OrderedArgs(argNames, args, kwargs)| == |args| + |set k | k in Drop(argNames, |args|) && k in kwargs|
  {
    var rest := Drop(argNames, |args|);
    assert NoDup(rest) by {
      if |args| <= |argNames| {
        forall i, j | 0 <= i < j < |rest| ensures rest[i] != rest[j] {
          assert rest[i] == argNames[|args| + i] && rest[j] == argNames[|args| + j];
        }
      }
    }
    TakenNamesCount(rest, kwargs);
  }

  /** A name already supplied positionally is never taken again from `kwargs`. */
  lemma PositionalNotRetaken<T>(argNames: seq<Name>, args: seq<T>, kwargs: map<Name, T>, p: nat)
    requires NoDup(argNames) && p < |args| && p < |argNames|
    ensures argNames[p] !in TakenNames(Drop(argNames, |args|), kwargs)
  {
    if |args| <= |argNames| {
      assert forall i :: 0 <= i < |argNames| - |args| ==> argNames[|args|..][i] == argNames[|args| + i];
    }
  }

  /** A keyword outside the remaining names changes nothing, whether it is added or removed. */
  lemma {:induction false} ExtraKeywordIgnored<T>(names: seq<Name>, kwargs: map<Name, T>, k: Name, v: T)
    requires k !in names
    ensures KeywordValues(names, kwargs[k := v]) == KeywordValues(names, kwargs)
    ensures KeywordValues(names, kwargs - {k}) == KeywordValues(names, kwargs)
  {
    if names != [] {
      ExtraKeywordIgnored(names[1..], kwargs, k, v);
    }
  }

  /** `ordered_args` ignores every keyword that does not name a remaining parameter. */
  lemma OrderedArgsIgnoresOthers<T>(argNames: seq<Name>, args: seq<T>, kwargs: map<Name, T>, k: Name, v: T)
    requires k !in Drop(argNames, |args|)
    ensures OrderedArgs(argNames, args, kwargs[k := v]) == OrderedArgs(argNames, args, kwargs)
    ensures OrderedArgs(argNames, args, kwargs - {k}) == OrderedArgs(argNames, args, kwargs)
  {
    ExtraKeywordIgnored(Drop(argNames, |args|), kwargs, k, v);
  }

  /** Keyword values for all of `names`, read off `vals`, give back `vals`. */
  lemma {:induction false} KeywordValuesComplete<T>(names: seq<Name>, vals: seq<T>, kwargs: map<Name, T>)
    requires |vals| == |names|
    requires forall i :: 0 <= i < |names| ==> names[i] in kwargs && kwargs[names[i]] == vals[i]
    ensures KeywordValues(names, kwargs) == vals
  {
    if names != [] {
      KeywordValuesComplete(names[1..], vals[1..], kwargs);
    }
  }

  /**
   * However the arguments are split between positions and keywords, and
   * whatever other keywords come along, `mandate` calls the section function
   * with the arguments in table order.
   */
  lemma MandateNormalizes<T, R>(func: seq<T> -> R, argNames: seq<Name>, vals: seq<T>, p: nat, kwargs: map<Name, T>)
    requires |vals| == |argNames| && p <= |vals|
    requires forall i :: p <= i < |argNames| ==> argNames[i] in kwargs && kwargs[argNames[i]] == vals[i]
    ensures OrderedArgs(argNames, vals[..p], kwargs) == vals
    ensures Mandate(func, argNames, vals[..p], kwargs) == func(vals)
  {
    var rest := argNames[p..];
    forall i | 0 <= i < |rest| ensures rest[i] in kwargs && kwargs[rest[i]] == vals[p..][i] {
      assert rest[i] == argNames[p + i];
    }
    KeywordValuesComplete(rest, vals[p..], kwargs);
    assert vals[..p] + vals[p..] == vals;
  }

  /** The section functions `properties` can select. */
  datatype SectionFunc = HSection | TSection | ISection | OSection | CSection | RSection

  datatype SectionError =
    | UnboundShape(shape: string)   // `arg_names`/`func` unbound: UnboundLocalError
    | Arity(count: nat)             // the section function rejects that many arguments: TypeError
    | ZeroDivision                  // ZeroDivisionError
    | MathDomain                    // `sqrt` of a negative number: ValueError

  const HNames: seq<Name> := ["H", "B", "tw", "tf", "r"]
  const INames: seq<Name> := ["H", "B", "tw", "tf"]
  const ONames: seq<Name> := ["D", "t"]
  const RNames: seq<Name> := ["H", "B", "t", "r"]

  const KnownShapes: set<string> := {"H", "T", "I", "O", "C", "R"}

  /** The if/elif table of `properties`: a section function and its parameter names. */
  function Dispatch(shape: string): (r: Option<(SectionFunc, seq<Name>)>)
    ensures r.Some? <==> shape in KnownShapes
  {
    if shape == "H" then Some((HSection, HNames))
    else if shape == "T" then Some((TSection, HNames))
    else if shape == "I" then Some((ISection, INames))
    else if shape == "O" then Some((OSection, ONames))
    else if shape == "C" then Some((CSection, INames))
    else if shape == "R" then Some((RSection, RNames))
    else None
  }

  /** A call `properties` makes: which section function, with which positional arguments. */
  datatype Call<T> = Call(func: SectionFunc, args: seq<T>)

  /**
   * `properties(shape, *args, **kwargs)` up to the section function: the
   * selected function and the arguments `mandate` passes it.
   */
  function Properties<T>(shape: string, args: seq<T>, kwargs: map<Name, T>): (r: Result<Call<T>, SectionError>)
    ensures r.Err? <==> shape !in KnownShapes
    ensures r.Err? ==> r.error == UnboundShape(shape)
    ensures r.Ok? ==> |args| <= |r.value.args| && r.value.args[..|args|] == args
    ensures r.Ok? ==>
      && Dispatch(shape).Some?
      && r.value.func == Dispatch(shape).value.0
      && r.value.args == OrderedArgs(Dispatch(shape).value.1, args, kwargs)
  {
    match Dispatch(shape)
    case None => Err(UnboundShape(shape))
    case Some((func, names)) => Ok(Call(func, OrderedArgs(names, args, kwargs)))
  }

  /**
   * The table: H and T take `(H, B, tw, tf, r)`, I and C take
   * `(H, B, tw, tf)`, O takes `(D, t)`, R takes `(H, B, t, r)`; the
   * names of each entry are distinct, and a shape selects its own function.
   */
  lemma ShapeTable()
    ensures Dispatch("H") == Some((HSection, ["H", "B", "tw", "tf", "r"]))
    ensures Dispatch("T") == Some((TSection, ["H", "B", "tw", "tf", "r"]))
    ensures Dispatch("I") == Some((ISection, ["H", "B", "tw", "tf"]))
    ensures Dispatch("C") == Some((CSection, ["H", "B", "tw", "tf"]))
    ensures Dispatch("O") == Some((OSection, ["D", "t"]))
    ensures Dispatch("R") == Some((RSection, ["H", "B", "t", "r"]))
    ensures forall s :: s in KnownShapes ==> NoDup(Dispatch(s).value.1)
  {
    assert "H" != "B" && "H" != "tw" && "H" != "tf" && "H" != "r" && "B" != "tw" && "B" != "tf" && "B" != "r";
    assert "tw" != "tf" && "tw" != "r" && "tf" != "r" && "D" != "t" && "B" != "t" && "H" != "t" && "t" != "r";
  }

  /** `math.pi`: the double nearest to pi, written out exactly. */
  const Pi: real := 3.141592653589793115997963468544185161590576171875

  /** The fillet terms `rd`, `rA` and `rI` of a fillet radius `r`. */
  function FilletOffset(r: real): real { (1.0 - 2.0 / (4.0 - Pi) / 3.0) * r }
  function FilletArea(r: real): real { (1.0 - Pi * 0.25) * r * r }
  function FilletInertia(r: real): real { (1.0 / 3.0 - Pi / 16.0 - 1.0 / (4.0 - Pi) / 9.0) * r * r * r * r }

  /** `A` of `h_properties` */
  function HArea(H: real, B: real, tw: real, tf: real, r: real): real
  {
    B * tf * 2.0 + (H - tf * 2.0) * tw + FilletArea(r) * 4.0
  }

  /** `Iz` of `h_properties`: about the axis along the web. */
  function HIz(H: real, B: real, tw: real, tf: real, r: real): real
  {
    var rd, rA := FilletOffset(r), FilletArea(r);
    var tIf := tf * B * B * B / 12.0;
    var tIw := (H - tf * 2.0) * tw * tw * tw / 12.0;
    var tIr := FilletInertia(r) + rA * ((tw * 0.25 + rd) * tw + rd * rd);
    tIf * 2.0 + tIw + tIr * 4.0
  }

  /** `Iy` of `h_properties`: about the axis across the web. */
  function HIy(H: real, B: real, tw: real, tf: real, r: real): real
  {
    var rd, rA := FilletOffset(r), FilletArea(r);
    var tIf := B * tf * tf * tf / 12.0 + B * tf * (H - tf) * (H - tf) * 0.25;
    var tIw := tw * (H - tf * 2.0) * (H - tf * 2.0) * (H - tf * 2.0) / 12.0;
    var c := H * 0.5 - tf - rd;
    var tIr := FilletInertia(r) + rA * c * c;
    tIf * 2.0 + tIw + tIr * 4.0
  }

  /** The entries of the dictionary `h_properties` returns, without `iy` and `iz`. */
  datatype HProps = HProps(Ax: real, Ay: real, Az: real, Iy: real, Iz: real, J: real, Zy: real, Zz: real)

  /**
   * `h_properties(H, B, tw, tf, r)`: the dictionary, or the error raised
   * while building it, in the order of its entries (`Zy` divides by `H`,
   * `Zz` by `B`, `iy` and `iz` divide by `A` and take a square root).
   */
  function HProperties(H: real, B: real, tw: real, tf: real, r: real): (p: Result<HProps, SectionError>)
    ensures p.Ok? <==> (H != 0.0 && B != 0.0 && HArea(H, B, tw, tf, r) != 0.0
      && HIy(H, B, tw, tf, r) / HArea(H, B, tw, tf, r) >= 0.0 && HIz(H, B, tw, tf, r) / HArea(H, B, tw, tf, r) >= 0.0)
    ensures p.Err? ==> p.error == (if H == 0.0 || B == 0.0 || HArea(H, B, tw, tf, r) == 0.0 then ZeroDivision else MathDomain)
    ensures p.Ok? ==> p.value.Ax == HArea(H, B, tw, tf, r) && p.value.Iy == HIy(H, B, tw, tf, r) && p.value.Iz == HIz(H, B, tw, tf, r)
  {
    var A := HArea(H, B, tw, tf, r);
    var Iy := HIy(H, B, tw, tf, r);
    var Iz := HIz(H, B, tw, tf, r);
    if H == 0.0 || B == 0.0 || A == 0.0 then Err(ZeroDivision)
    else if Iy / A < 0.0 || Iz / A < 0.0 then Err(MathDomain)
    else
      Ok(HProps(A, tf * B * 2.0, tw * H, Iy, Iz,
                (B * tf * tf * tf * 2.0 + (H - tf * 2.0) * tw * tw * tw) / 3.0,
                Iy / H * 2.0, Iz / B * 2.0))
  }

  /** The fillet terms vanish for `r = 0`. */
  lemma NoFillet()
    ensures FilletOffset(0.0) == 0.0 && FilletArea(0.0) == 0.0 && FilletInertia(0.0) == 0.0
  {
  }

  /**
   * Without fillets the area is the two flanges plus the web between them,
   * which is also the enclosing rectangle minus the two side notches.
   */
  lemma HAreaNoFillet(H: real, B: real, tw: real, tf: real)
    ensures HArea(H, B, tw, tf, 0.0) == 2.0 * B * tf + (H - 2.0 * tf) * tw
    ensures HArea(H, B, tw, tf, 0.0) == B * H - (B - tw) * (H - 2.0 * tf)
  {
    NoFillet();
  }

  /**
   * Without fillets `Iy` is the enclosing rectangle's second moment minus
   * the notches': `(B H^3 - (B - tw) (H - 2 tf)^3) / 12`.
   */
  lemma HIyNoFillet(H: real, B: real, tw: real, tf: real)
    ensures HIy(H, B, tw, tf, 0.0) == (B * H * H * H - (B - tw) * (H - 2.0 * tf) * (H - 2.0 * tf) * (H - 2.0 * tf)) / 12.0
  {
    NoFillet();
    var h := H - 2.0 * tf;
    assert H == h + 2.0 * tf;
    assert H * H * H == h * h * h + 6.0 * h * h * tf + 12.0 * h * tf * tf + 8.0 * tf * tf * tf;
    assert (H - tf) * (H - tf) == h * h + 2.0 * h * tf + tf * tf;
  }

  /** Without fillets `Iz` is the two flanges' plus the web's second moment about the web axis. */
  lemma HIzNoFillet(H: real, B: real, tw: real, tf: real)
    ensures HIz(H, B, tw, tf, 0.0) == (2.0 * tf * B * B * B + (H - 2.0 * tf) * tw * tw * tw) / 12.0
  {
    NoFillet();
  }

  /**
   * For `r = 0` the entries of `h_properties`: `Ax`, the shear areas
   * `Ay = 2 tf B` and `Az = tw H`, and `J = (2 B tf^3 + (H - 2 tf) tw^3) / 3`.
   */
  lemma HPropertiesNoFillet(H: real, B: real, tw: real, tf: real)
    requires HProperties(H, B, tw, tf, 0.0).Ok?
    ensures var p := HProperties(H, B, tw, tf, 0.0).value;
      && p.Ax == 2.0 * B * tf + (H - 2.0 * tf) * tw
      && p.Ay == 2.0 * tf * B
      && p.Az == tw * H
      && p.J == (2.0 * B * tf * tf * tf + (H - 2.0 * tf) * tw * tw * tw) / 3.0
  {
    HAreaNoFillet(H, B, tw, tf);
  }

  /**
   * `h_properties(*args)`: four arguments leave `r = 0`, five give it,
   * any other count is a `TypeError`.
   */
  function HCall(args: seq<real>): (p: Result<HProps, SectionError>)
    ensures |args| != 4 && |args| != 5 ==> p == Err(Arity(|args|))
    ensures |args| == 4 ==> p == HProperties(args[0], args[1], args[2], args[3], 0.0)
    ensures |args| == 5 ==> p == HProperties(args[0], args[1], args[2], args[3], args[4])
  {
    if |args| == 4 then HProperties(args[0], args[1], args[2], args[3], 0.0)
    else if |args| == 5 then HProperties(args[0], args[1], args[2], args[3], args[4])
    else Err(Arity(|args|))
  }

  /** `properties('H', *args, **kwargs)`: `h_properties` called with `ordered_args` over `(H, B, tw, tf, r)`. */
  function HShapeProperties(args: seq<real>, kwargs: map<Name, real>): (p: Result<HProps, SectionError>)
    ensures p == HCall(OrderedArgs(["H", "B", "tw", "tf", "r"], args, kwargs))
  {
    match Properties("H", args, kwargs)
    case Err(e) => Err(e)
    case Ok(call) => HCall(call.args)
  }

  /** Keyword values split over consecutive groups of names. */
  lemma {:induction false} KeywordValuesAppend<T>(n1: seq<Name>, n2: seq<Name>, kwargs: map<Name, T>)
    ensures KeywordValues(n1 + n2, kwargs) == KeywordValues(n1, kwargs) + KeywordValues(n2, kwargs)
  {
    if n1 != [] {
      KeywordValuesAppend(n1[1..], n2, kwargs);
      assert (n1 + n2)[1..] == n1[1..] + n2;
    } else {
      assert n1 + n2 == n2;
    }
  }

  /** No value is taken for a name that is not supplied. */
  lemma KeywordValuesOne<T>(n: Name, kwargs: map<Name, T>)
    ensures KeywordValues([n], kwargs) == if n in kwargs then [kwargs[n]] else []
  {
    assert [n][1..] == [];
  }

  /** The keyword spellings of the H table are pairwise different. */
  lemma HNamesDistinct()
    ensures "H" != "B" && "H" != "tw" && "H" != "tf" && "H" != "r" && "H" != "D"
    ensures "B" != "tw" && "B" != "tf" && "B" != "r" && "B" != "D"
    ensures "tw" != "tf" && "tw" != "r" && "tw" != "D" && "tf" != "r" && "tf" != "D" && "r" != "D"
  {
    assert "tw"[1] != "tf"[1];
  }

  /** All four H dimensions by keyword: `ordered_args` lists them in table order and stops. */
  lemma HArgsByKeyword<T>(H: T, B: T, tw: T, tf: T)
    ensures OrderedArgs(HNames, [], map["H" := H, "B" := B, "tw" := tw, "tf" := tf]) == [H, B, tw, tf]
  {
    var kw := map["H" := H, "B" := B, "tw" := tw, "tf" := tf];
    HNamesDistinct();
    assert KeywordValues(["r"], kw) == [] by {
      assert "r" !in kw;
      KeywordValuesOne("r", kw);
    }
    assert KeywordValues(["H", "B", "tw", "tf"], kw) == [H, B, tw, tf] by {
      KeywordValuesComplete(["H", "B", "tw", "tf"], [H, B, tw, tf], kw);
    }
    assert HNames == ["H", "B", "tw", "tf"] + ["r"];
    KeywordValuesAppend(["H", "B", "tw", "tf"], ["r"], kw);
  }

  /** `H` and `B` by position, `tf` and `tw` by keyword, and a stray `D`. */
  lemma HArgsMixed<T>(H: T, B: T, tw: T, tf: T, d: T)
    ensures OrderedArgs(HNames, [H, B], map["tf" := tf, "tw" := tw, "D" := d]) == [H, B, tw, tf]
  {
    var kw := map["tf" := tf, "tw" := tw, "D" := d];
    HNamesDistinct();
    assert "r" !in kw && kw["tw"] == tw && kw["tf"] == tf;
    assert Drop(HNames, 2) == ["tw", "tf"] + ["r"];
    KeywordValuesAppend(["tw", "tf"], ["r"], kw);
    KeywordValuesOne("r", kw);
    KeywordValuesComplete(["tw", "tf"], [tw, tf], kw);
    assert [H, B] + [tw, tf] == [H, B, tw, tf];
  }

  /** Without `tf` (and `r`) only three values are passed. */
  lemma HArgsMissingFlange<T>(H: T, B: T, tw: T)
    ensures OrderedArgs(HNames, [], map["H" := H, "B" := B, "tw" := tw]) == [H, B, tw]
  {
    var kw := map["H" := H, "B" := B, "tw" := tw];
    HNamesDistinct();
    assert KeywordValues(["tf", "r"], kw) == [] by {
      assert "tf" !in kw && "r" !in kw;
      KeywordValuesOne("tf", kw);
      KeywordValuesOne("r", kw);
      assert ["tf", "r"] == ["tf"] + ["r"];
      KeywordValuesAppend(["tf"], ["r"], kw);
    }
    assert KeywordValues(["H", "B", "tw"], kw) == [H, B, tw] by {
      KeywordValuesComplete(["H", "B", "tw"], [H, B, tw], kw);
    }
    assert HNames == ["H", "B", "tw"] + ["tf", "r"];
    KeywordValuesAppend(["H", "B", "tw"], ["tf", "r"], kw);
  }

  /**
   * A keyword left out in the middle shifts the later ones left: with `tf`
   * missing, the value of `r` is passed in the place of `tf`.
   */
  lemma HArgsSkippedFlange<T>(H: T, B: T, tw: T, r: T)
    ensures OrderedArgs(HNames, [], map["H" := H, "B" := B, "tw" := tw, "r" := r]) == [H, B, tw, r]
  {
    var kw := map["H" := H, "B" := B, "tw" := tw, "r" := r];
    HNamesDistinct();
    assert KeywordValues(["tf", "r"], kw) == [r] by {
      assert "tf" !in kw && "r" in kw && kw["r"] == r;
      KeywordValuesOne("tf", kw);
      KeywordValuesOne("r", kw);
      assert ["tf", "r"] == ["tf"] + ["r"];
      KeywordValuesAppend(["tf"], ["r"], kw);
    }
    assert KeywordValues(["H", "B", "tw"], kw) == [H, B, tw] by {
      KeywordValuesComplete(["H", "B", "tw"], [H, B, tw], kw);
    }
    assert HNames == ["H", "B", "tw"] + ["tf", "r"];
    KeywordValuesAppend(["H", "B", "tw"], ["tf", "r"], kw);
  }

  /** `properties('H', H=…, B=…, tw=…, r=…)` computes an H section whose flange thickness is `r` and whose fillet is 0. */
  lemma HShapeSkippedFlange(H: real, B: real, tw: real, r: real)
    ensures HShapeProperties([], map["H" := H, "B" := B, "tw" := tw, "r" := r]) == HProperties(H, B, tw, r, 0.0)
  {
    HArgsSkippedFlange(H, B, tw, r);
  }

  /**
   * An H section gets the properties of the positional call with `r`
   * defaulting to 0, whether its dimensions come by keyword or mixed with
   * positions and a stray keyword; leaving out `tf` is an arity error.
   */
  lemma HShapeCalls(H: real, B: real, tw: real, tf: real)
    ensures HShapeProperties([], map["H" := H, "B" := B, "tw" := tw, "tf" := tf]) == HProperties(H, B, tw, tf, 0.0)
    ensures HShapeProperties([H, B], map["tf" := tf, "tw" := tw, "D" := 1.0]) == HProperties(H, B, tw, tf, 0.0)
    ensures HShapeProperties([], map["H" := H, "B" := B, "tw" := tw]) == Err(Arity(3))
  {
    HArgsByKeyword(H, B, tw, tf);
    HArgsMixed(H, B, tw, tf, 1.0);
    HArgsMissingFlange(H, B, tw);
  }
}

/** Rewriting a checkpoint shard: some tensors are replaced by an int8 weight and its scale, all others
    are copied. A first pass gives every tensor its place in the new file and lists what to write there;
    a second pass writes it, copying in chunks. What a reader finds in the new file under each name is
    what the first pass meant to put there, exactly as long as no name is used twice. */
module CheckpointMerge {
  import opened Options
  import Grid
  import Slots

  datatype Result<+T> = Ok(value: T) | ConversionFailed | ShortRead | EmptyShard

  type byte = x: int | 0 <= x < 256

  datatype Dtype = BF16 | I8 | OtherType(name: string)

  /** A tensor as a header lists it; the offsets count from the start of the data section. */
  datatype Info = Info(dtype: Dtype, shape: seq<nat>, lo: nat, hi: nat)
  datatype Entry = Entry(name: string, info: Info)

  /** What a reader gets for a tensor. */
  datatype Tensor = Tensor(dtype: Dtype, shape: seq<nat>, bytes: seq<byte>)

  /** An int8 weight with its bf16 scales. */
  datatype Converted = Converted(weight: seq<byte>, scale: seq<byte>, rows: nat, columns: nat)

  /** The quantisation of a weight, where it is defined. */
  type Quantiser = (seq<byte>, seq<nat>) -> Option<Converted>

  // ---------------------------------------------------------------------------------------------
  // Names
  // ---------------------------------------------------------------------------------------------

  predicate EndsWith(s: string, end: string) {
    |end| <= |s| && s[|s| - |end|..] == end
  }

  lemma EndsWithIs(s: string, end: string)
    ensures EndsWith(s, end) <==> exists stem: string :: s == stem + end
  {
    if EndsWith(s, end) {
      assert s == s[..|s| - |end|] + end;
    }
    if stem: string :| s == stem + end {
      assert s[|s| - |end|..] == end;
    }
  }

  const WEIGHT := ".weight"
  const SCALE := ".weight_scale"

  predicate NamesProjection(name: string) {
    || EndsWith(name, ".linear_attn.in_proj_qkv" + WEIGHT)
    || EndsWith(name, ".linear_attn.in_proj_z" + WEIGHT)
    || EndsWith(name, ".linear_attn.out_proj" + WEIGHT)
  }

  /** The pattern's end is the end of the name or a newline there. */
  predicate IsProjection(name: string) {
    NamesProjection(name) || (EndsWith(name, "\n") && NamesProjection(name[..|name| - 1]))
  }

  /** The scale's name, which takes seven characters off the weight's whatever they are. */
  function ScaleName(name: string): string
    requires |name| >= |WEIGHT|
  {
    name[..|name| - |WEIGHT|] + SCALE
  }

  lemma CharOf(s: string, end: string, i: nat)
    requires EndsWith(s, end) && i < |end|
    ensures s[|s| - |end| + i] == end[i]
  {
    assert s[|s| - |end|..][i] == s[|s| - |end| + i];
  }

  /** What is in front of the last seven characters of a projection ends with a letter, and the name with
      ".weight". */
  lemma ProjectionParts(name: string)
    requires NamesProjection(name)
    ensures |name| > |WEIGHT| && name == name[..|name| - |WEIGHT|] + WEIGHT && name[|name| - |WEIGHT| - 1] != '.'
  {
    var end := if EndsWith(name, ".linear_attn.in_proj_qkv" + WEIGHT) then ".linear_attn.in_proj_qkv"
               else if EndsWith(name, ".linear_attn.in_proj_z" + WEIGHT) then ".linear_attn.in_proj_z"
               else ".linear_attn.out_proj";
    assert name[|name| - |WEIGHT|..] == name[|name| - |end + WEIGHT|..][|end|..] == (end + WEIGHT)[|end|..] == WEIGHT;
    CharOf(name, end + WEIGHT, |end| - 1);
  }

  /** The last seven characters of a converted name are ".weight", or "weight" and a newline behind a dot. */
  lemma ConvertedParts(name: string)
    requires IsProjection(name)
    ensures |name| > |WEIGHT| && name[|name| - 1] != 'e'
    ensures var cut := name[..|name| - |WEIGHT|];
      name == cut + if cut[|cut| - 1] == '.' then "weight\n" else WEIGHT
  {
    if NamesProjection(name) {
      ProjectionParts(name);
      assert name[|name| - 1] == (name[..|name| - |WEIGHT|] + WEIGHT)[|name| - 1] == 't';
    } else {
      var plain := name[..|name| - 1];
      ProjectionParts(plain);
      assert name == plain + "\n";
      NewlineParts(plain[..|plain| - |WEIGHT|], name);
    }
  }

  lemma NewlineParts(stem: string, name: string)
    requires name == stem + WEIGHT + "\n"
    ensures |name| > |WEIGHT| && name[..|name| - |WEIGHT|] == stem + "." && name == stem + "." + "weight\n" && name[|name| - 1] == '\n'
  {
    assert WEIGHT + "\n" == "." + "weight\n";
    assert stem + WEIGHT + "\n" == stem + (WEIGHT + "\n");
    assert stem + ("." + "weight\n") == stem + "." + "weight\n";
  }

  /** Different weights have different scales, and a scale is never named like a weight. */
  lemma ScaleNames(a: string, b: string)
    requires IsProjection(a) && IsProjection(b)
    ensures |a| >= |WEIGHT| && |b| >= |WEIGHT| && ScaleName(a) != b && EndsWith(ScaleName(a), SCALE)
    ensures ScaleName(a) == ScaleName(b) ==> a == b
  {
    ConvertedParts(a);
    ConvertedParts(b);
    var cut := a[..|a| - |WEIGHT|];
    assert ScaleName(a)[|cut|..] == SCALE;
    CharOf(ScaleName(a), SCALE, |SCALE| - 1);
    if ScaleName(a) == ScaleName(b) {
      assert ScaleName(a)[..|cut|] == cut && ScaleName(b)[..|cut|] == b[..|b| - |WEIGHT|];
    }
  }

  /** The names that are converted: those of the three projections, with or without a newline behind them. */
  lemma PicksExactly(name: string)
    ensures Gdn().picks(name) <==>
              exists stem: string, part: string :: part in ["in_proj_qkv", "in_proj_z", "out_proj"]
                && (name == stem + (".linear_attn." + part + ".weight") || name == stem + (".linear_attn." + part + ".weight") + "\n")
  {
    NamesExactly(name);
    EndsWithIs(name, "\n");
    if EndsWith(name, "\n") {
      var plain := name[..|name| - 1];
      NamesExactly(plain);
      assert name == plain + "\n";
    }
    if stem: string, part: string :| part in ["in_proj_qkv", "in_proj_z", "out_proj"] && name == stem + (".linear_attn." + part + ".weight") + "\n" {
      assert name[..|name| - 1] == stem + (".linear_attn." + part + ".weight");
      assert name[|name| - 1..] == "\n";
    }
  }

  lemma NamesExactly(name: string)
    ensures NamesProjection(name) <==>
              exists stem: string, part: string :: part in ["in_proj_qkv", "in_proj_z", "out_proj"] && name == stem + (".linear_attn." + part + ".weight")
  {
    var parts := ["in_proj_qkv", "in_proj_z", "out_proj"];
    forall part | part in parts
      ensures EndsWith(name, ".linear_attn." + part + ".weight") <==> exists stem: string :: name == stem + (".linear_attn." + part + ".weight")
    {
      EndsWithIs(name, ".linear_attn." + part + ".weight");
    }
    assert ".linear_attn.in_proj_qkv" + WEIGHT == ".linear_attn." + parts[0] + ".weight";
    assert ".linear_attn.in_proj_z" + WEIGHT == ".linear_attn." + parts[1] + ".weight";
    assert ".linear_attn.out_proj" + WEIGHT == ".linear_attn." + parts[2] + ".weight";
  }

  /** The name of a scale; a weight whose name ends in a newline is converted too, and its scale gets a second
      dot for it. */
  lemma NewlineName(stem: string)
    requires NamesProjection(stem + WEIGHT)
    ensures ScaleName(stem + ".weight") == stem + ".weight_scale"
    ensures IsProjection(stem + ".weight\n") && ScaleName(stem + ".weight\n") == stem + "." + ".weight_scale" != ScaleName(stem + ".weight")
  {
    var name := stem + WEIGHT + "\n";
    assert name == stem + ".weight\n";
    assert name[..|name| - 1] == stem + WEIGHT;
    NewlineParts(stem, name);
    assert (stem + WEIGHT)[..|stem|] == stem;
    assert |stem + "." + SCALE| != |stem + SCALE|;
  }

  // ---------------------------------------------------------------------------------------------
  // What the new file is meant to be
  // ---------------------------------------------------------------------------------------------

  /** Which tensors to convert, by name, and what to call their scales. */
  datatype Naming = Naming(picks: string -> bool, scaleName: string -> string)

  /** Scales do not get in each other's way or in that of a converted weight. */
  ghost predicate NamingOk(g: Naming) {
    forall a, b {:trigger g.scaleName(a), g.picks(b)} :: g.picks(a) && g.picks(b) ==>
      g.scaleName(a) != b && (g.scaleName(a) == g.scaleName(b) ==> a == b)
  }

  /** The naming of the script. */
  function Gdn(): (g: Naming) {
    Naming((name: string) => IsProjection(name), (name: string) => if |name| < |WEIGHT| then name else ScaleName(name))
  }

  lemma GdnOk()
    ensures NamingOk(Gdn())
    ensures forall a {:trigger Gdn().scaleName(a)} :: Gdn().picks(a) ==> EndsWith(Gdn().scaleName(a), SCALE)
  {
    forall a, b | IsProjection(a) && IsProjection(b)
      ensures Gdn().scaleName(a) != b && (Gdn().scaleName(a) == Gdn().scaleName(b) ==> a == b) && EndsWith(Gdn().scaleName(a), SCALE)
    {
      ScaleNames(a, b);
    }
  }

  /** The tensors of a shard in the order of their data, the data, the naming, and the quantisation. */
  datatype Job = Job(entries: seq<Entry>, data: seq<byte>, naming: Naming, quant: Quantiser)

  /** Every tensor ends no earlier than it starts, and no name is listed twice. */
  predicate JobOk(j: Job) {
    && (forall i :: 0 <= i < |j.entries| ==> j.entries[i].info.lo <= j.entries[i].info.hi)
    && (forall i, k :: 0 <= i < k < |j.entries| ==> j.entries[i].name != j.entries[k].name)
  }

  predicate IsConverted(j: Job, e: Entry) {
    j.naming.picks(e.name) && e.info.dtype == BF16
  }

  /** The bytes of a tensor as read, which may be fewer than the header says. */
  function ReadBytes(data: seq<byte>, lo: nat, hi: nat): (r: seq<byte>)
    requires lo <= hi
    ensures |r| <= hi - lo
  {
    if hi <= |data| then data[lo..hi] else if lo <= |data| then data[lo..] else []
  }

  function Convert(j: Job, i: nat): Option<Converted>
    requires JobOk(j) && i < |j.entries|
  {
    var e := j.entries[i];
    j.quant(ReadBytes(j.data, e.info.lo, e.info.hi), e.info.shape)
  }

  /** All conversions are defined, so far. */
  predicate Convertible(j: Job, n: nat)
    requires JobOk(j) && n <= |j.entries|
  {
    forall i {:trigger Convert(j, i)} :: 0 <= i < n && IsConverted(j, j.entries[i]) ==> Convert(j, i).Some?
  }

  /** What to write for a tensor: a stretch of the old data section, or new bytes. */
  datatype Source = Copy(lo: nat, hi: nat) | Made(bytes: seq<byte>)

  /** The two parts of an entry: the tensor under its own name, and the scale, if there is one. */
  datatype Part = Part(dtype: Dtype, shape: seq<nat>, source: Source)

  function Primary(j: Job, i: nat): (p: Part)
    requires JobOk(j) && i < |j.entries|
    ensures Size(p.source) >= 0
  {
    var e := j.entries[i];
    if !IsConverted(j, e) then Part(e.info.dtype, e.info.shape, Copy(e.info.lo, e.info.hi))
    else if Convert(j, i) == None then Part(I8, [], Made([]))
    else Part(I8, [Convert(j, i).value.rows, Convert(j, i).value.columns], Made(Convert(j, i).value.weight))
  }

  function ScaleOf(j: Job, i: nat): (p: Part)
    requires JobOk(j) && i < |j.entries|
    ensures p.source.Made?
  {
    if !IsConverted(j, j.entries[i]) || Convert(j, i) == None then Part(BF16, [], Made([]))
    else Part(BF16, [Convert(j, i).value.rows, 1], Made(Convert(j, i).value.scale))
  }

  function Size(s: Source): int {
    match s
    case Copy(lo, hi) => hi - lo
    case Made(bytes) => |bytes|
  }

  /** Where the parts of entry `i` start in the new data section. */
  function Start(j: Job, i: nat): (off: nat)
    requires JobOk(j) && i <= |j.entries|
  {
    if i == 0 then 0 else Start(j, i - 1) + Size(Primary(j, i - 1).source) + Size(ScaleOf(j, i - 1).source)
  }

  function Middle(j: Job, i: nat): (off: nat)
    requires JobOk(j) && i < |j.entries|
    ensures Start(j, i) <= off <= Start(j, i + 1)
  {
    Start(j, i) + Size(Primary(j, i).source)
  }

  function PrimaryInfo(j: Job, i: nat): Info
    requires JobOk(j) && i < |j.entries|
  {
    Info(Primary(j, i).dtype, Primary(j, i).shape, Start(j, i), Middle(j, i))
  }

  function ScaleInfo(j: Job, i: nat): Info
    requires JobOk(j) && i < |j.entries|
  {
    Info(ScaleOf(j, i).dtype, ScaleOf(j, i).shape, Middle(j, i), Start(j, i + 1))
  }

  /** The new header after some entries: a name used again gets its later place. */
  function Header(j: Job, n: nat): map<string, Info>
    requires JobOk(j) && n <= |j.entries|
  {
    if n == 0 then map[]
    else
      var h := Header(j, n - 1)[j.entries[n - 1].name := PrimaryInfo(j, n - 1)];
      if IsConverted(j, j.entries[n - 1]) then
        h[j.naming.scaleName(j.entries[n - 1].name) := ScaleInfo(j, n - 1)]
      else h
  }

  /** What is written, in order. */
  function Sources(j: Job, n: nat): seq<Source>
    requires JobOk(j) && n <= |j.entries|
  {
    if n == 0 then []
    else Sources(j, n - 1) + [Primary(j, n - 1).source] + if IsConverted(j, j.entries[n - 1]) then [ScaleOf(j, n - 1).source] else []
  }

  // ---------------------------------------------------------------------------------------------
  // Pass 1
  // ---------------------------------------------------------------------------------------------

  /** What the first pass builds. */
  datatype Draft = Draft(header: map<string, Info>, plan: seq<Source>, size: nat)

  function Add(d: Draft, name: string, p: Part): Draft
    requires Size(p.source) >= 0
  {
    Draft(d.header[name := Info(p.dtype, p.shape, d.size, d.size + Size(p.source))], d.plan + [p.source], d.size + Size(p.source))
  }

  predicate Drafted(j: Job, d: Draft, n: nat)
    requires JobOk(j) && n <= |j.entries|
  {
    d.header == Header(j, n) && d.plan == Sources(j, n) && d.size == Start(j, n)
  }

  /** The weight of a converted tensor, and its scale right behind it. */
  method AddConverted(j: Job, i: nat, c: Converted, d: Draft) returns (next: Draft)
    requires JobOk(j) && i < |j.entries| && IsConverted(j, j.entries[i]) && Convert(j, i) == Some(c) && Drafted(j, d, i)
    ensures Drafted(j, next, i + 1)
  {
    var name := j.entries[i].name;
    next := Add(d, name, Part(I8, [c.rows, c.columns], Made(c.weight)));
    next := Add(next, j.naming.scaleName(name), Part(BF16, [c.rows, 1], Made(c.scale)));
  }

  /** The first pass. It fails if a tensor to convert cannot be converted, and otherwise drafts the
      header and the plan of all tensors in order. */
  method Plan(j: Job) returns (r: Option<Draft>)
    requires JobOk(j)
    ensures r.Some? <==> Convertible(j, |j.entries|)
    ensures r.Some? ==> Drafted(j, r.value, |j.entries|)
  {
    var d := Draft(map[], [], 0);
    for i := 0 to |j.entries|
      invariant Convertible(j, i) && Drafted(j, d, i)
    {
      var e := j.entries[i];
      if IsConverted(j, e) {
        var c := Convert(j, i);
        if c == None {
          return None;
        }
        d := AddConverted(j, i, c.value, d);
      } else {
        d := Add(d, e.name, Part(e.info.dtype, e.info.shape, Copy(e.info.lo, e.info.hi)));
      }
    }
    r := Some(d);
  }

  // ---------------------------------------------------------------------------------------------
  // Pass 2
  // ---------------------------------------------------------------------------------------------

  predicate Readable(s: Source, data: seq<byte>) {
    s.Copy? && s.lo < s.hi ==> s.hi <= |data|
  }

  function Content(s: Source, data: seq<byte>): (c: seq<byte>)
    requires Readable(s, data)
    ensures Size(s) >= 0 ==> |c| == Size(s)
  {
    match s
    case Copy(lo, hi) => if lo < hi then data[lo..hi] else []
    case Made(bytes) => bytes
  }

  /** What has been written and one source more, unless it cannot be read. */
  function Append(out: Option<seq<byte>>, s: Source, data: seq<byte>): Option<seq<byte>> {
    if out == None || !Readable(s, data) then None else Some(out.value + Content(s, data))
  }

  function Written(plan: seq<Source>, data: seq<byte>, n: nat): Option<seq<byte>>
    requires n <= |plan|
  {
    if n == 0 then Some([]) else Append(Written(plan, data, n - 1), plan[n - 1], data)
  }

  lemma {:induction false} NothingMore(plan: seq<Source>, data: seq<byte>, k: nat, n: nat)
    requires k <= n <= |plan| && Written(plan, data, k) == None
    ensures Written(plan, data, n) == None
  {
    if k < n {
      NothingMore(plan, data, k, n - 1);
    }
  }

  /** Copies a stretch of the old data in chunks; a read past the end of the file comes back empty. */
  method CopyStretch(data: seq<byte>, lo: nat, hi: nat, chunk: nat) returns (r: Option<seq<byte>>)
    requires lo <= hi && chunk > 0
    ensures r.Some? <==> Readable(Copy(lo, hi), data)
    ensures r.Some? ==> r.value == Content(Copy(lo, hi), data)
  {
    var out: seq<byte> := [];
    var pos, remaining := lo, hi - lo;
    while remaining != 0
      invariant 0 <= remaining && pos + remaining == hi && lo <= pos && (lo < pos ==> pos <= |data|)
      invariant out == if lo < pos then data[lo..pos] else []
      decreases remaining
    {
      var buf := ReadBytes(data, pos, pos + if chunk < remaining then chunk else remaining);
      if buf == [] {
        return None;
      }
      out := out + buf;
      pos, remaining := pos + |buf|, remaining - |buf|;
    }
    r := Some(out);
  }

  /** The second pass: the new data section, or a short read. */
  method WriteAll(plan: seq<Source>, data: seq<byte>, chunk: nat) returns (r: Option<seq<byte>>)
    requires chunk > 0 && forall k :: 0 <= k < |plan| ==> Size(plan[k]) >= 0
    ensures r == Written(plan, data, |plan|)
  {
    var out: seq<byte> := [];
    for k := 0 to |plan|
      invariant Written(plan, data, k) == Some(out)
    {
      match plan[k] {
        case Made(bytes) =>
          out := out + bytes;
        case Copy(lo, hi) =>
          assert Size(plan[k]) >= 0;
          var stretch := CopyStretch(data, lo, hi, chunk);
          if stretch == None {
            NothingMore(plan, data, k + 1, |plan|);
            return None;
          }
          out := out + stretch.value;
      }
    }
    r := Some(out);
  }

  // ---------------------------------------------------------------------------------------------
  // The new data section
  // ---------------------------------------------------------------------------------------------

  /** The old file holds all the data that is copied, so far. */
  predicate Fits(j: Job, n: nat)
    requires JobOk(j) && n <= |j.entries|
  {
    forall i :: 0 <= i < n ==> Readable(Primary(j, i).source, j.data)
  }

  function Body(j: Job, n: nat): (body: seq<byte>)
    requires JobOk(j) && n <= |j.entries| && Fits(j, n)
    ensures |body| == Start(j, n)
  {
    if n == 0 then [] else Body(j, n - 1) + Content(Primary(j, n - 1).source, j.data) + Content(ScaleOf(j, n - 1).source, j.data)
  }

  lemma {:induction false} WrittenPrefix(plan: seq<Source>, s: Source, data: seq<byte>, n: nat)
    requires n <= |plan|
    ensures Written(plan + [s], data, n) == Written(plan, data, n)
  {
    if n > 0 {
      WrittenPrefix(plan, s, data, n - 1);
      assert (plan + [s])[n - 1] == plan[n - 1];
    }
  }

  lemma WrittenAdd(plan: seq<Source>, s: Source, data: seq<byte>)
    ensures Written(plan + [s], data, |plan + [s]|) == Append(Written(plan, data, |plan|), s, data)
  {
    WrittenPrefix(plan, s, data, |plan|);
    assert (plan + [s])[|plan|] == s;
  }

  /** One entry more: a main part, and a scale if there is one. */
  lemma WrittenEntry(plan: seq<Source>, main: Source, scale: seq<byte>, two: bool, data: seq<byte>, out: Option<seq<byte>>)
    requires Written(plan, data, |plan|) == out && (!two ==> scale == [])
    ensures var more := plan + [main] + if two then [Made(scale)] else [];
      Written(more, data, |more|) == if out == None || !Readable(main, data) then None else Some(out.value + Content(main, data) + scale)
  {
    WrittenAdd(plan, main, data);
    if two {
      WrittenAdd(plan + [main], Made(scale), data);
    } else {
      assert plan + [main] + [] == plan + [main];
      if out.Some? && Readable(main, data) {
        assert out.value + Content(main, data) + scale == out.value + Content(main, data);
      }
    }
  }

  /** The plan can be carried out exactly when the old file is long enough, and it writes the body. */
  lemma {:induction false} PlanWritesBody(j: Job, n: nat)
    requires JobOk(j) && n <= |j.entries|
    ensures Written(Sources(j, n), j.data, |Sources(j, n)|) == if Fits(j, n) then Some(Body(j, n)) else None
  {
    if n > 0 {
      PlanWritesBody(j, n - 1);
      var main, scale := Primary(j, n - 1).source, ScaleOf(j, n - 1).source;
      WrittenEntry(Sources(j, n - 1), main, scale.bytes, IsConverted(j, j.entries[n - 1]), j.data,
                   if Fits(j, n - 1) then Some(Body(j, n - 1)) else None);
      FitsNext(j, n);
    }
  }

  lemma FitsNext(j: Job, n: nat)
    requires JobOk(j) && 0 < n <= |j.entries|
    ensures Fits(j, n) <==> Fits(j, n - 1) && Readable(Primary(j, n - 1).source, j.data)
  {
  }

  lemma {:induction false} SourcesSized(j: Job, n: nat)
    requires JobOk(j) && n <= |j.entries|
    ensures forall k :: 0 <= k < |Sources(j, n)| ==> Size(Sources(j, n)[k]) >= 0
  {
    if n > 0 {
      SourcesSized(j, n - 1);
    }
  }

  lemma {:induction false} StartGrows(j: Job, i: nat, n: nat)
    requires JobOk(j) && i <= n <= |j.entries|
    ensures Start(j, i) <= Start(j, n)
  {
    if i < n {
      StartGrows(j, i, n - 1);
    }
  }

  lemma {:induction false} BodyPrefix(j: Job, i: nat, n: nat)
    requires JobOk(j) && i <= n <= |j.entries| && Fits(j, n)
    ensures Start(j, i) <= Start(j, n) && Body(j, n)[..Start(j, i)] == Body(j, i)
  {
    if i < n {
      BodyPrefix(j, i, n - 1);
      Prefix(Body(j, n - 1), Content(Primary(j, n - 1).source, j.data), Content(ScaleOf(j, n - 1).source, j.data), Start(j, i));
    }
  }

  lemma Prefix<T>(a: seq<T>, b: seq<T>, c: seq<T>, n: nat)
    requires n <= |a|
    ensures (a + b + c)[..n] == a[..n]
  {
  }

  lemma Slices<T>(a: seq<T>, b: seq<T>, c: seq<T>, s: seq<T>)
    requires |s| >= |a| + |b| + |c| && s[..|a| + |b| + |c|] == a + b + c
    ensures s[|a|..|a| + |b|] == b && s[|a| + |b|..|a| + |b| + |c|] == c
  {
    var t := a + b + c;
    assert t[|a|..|a| + |b|] == b && t[|a| + |b|..] == c;
    assert s[|a|..|a| + |b|] == s[..|t|][|a|..|a| + |b|];
    assert s[|a| + |b|..|t|] == s[..|t|][|a| + |b|..];
  }

  /** Every part is where its place says. */
  lemma BodyAt(j: Job, i: nat, n: nat)
    requires JobOk(j) && i < n <= |j.entries| && Fits(j, n)
    ensures Start(j, i + 1) <= Start(j, n)
    ensures Body(j, n)[Start(j, i)..Middle(j, i)] == Content(Primary(j, i).source, j.data)
    ensures Body(j, n)[Middle(j, i)..Start(j, i + 1)] == Content(ScaleOf(j, i).source, j.data)
  {
    BodyPrefix(j, i + 1, n);
    Slices(Body(j, i), Content(Primary(j, i).source, j.data), Content(ScaleOf(j, i).source, j.data), Body(j, n));
  }

  // ---------------------------------------------------------------------------------------------
  // What a reader of the new file finds
  // ---------------------------------------------------------------------------------------------

  /** A tensor as loaded; data that ends too early cannot be given its shape. */
  function Load(header: map<string, Info>, data: seq<byte>, name: string): Option<Tensor> {
    if name !in header || header[name].hi < header[name].lo then None
    else
      var info := header[name];
      var bytes := ReadBytes(data, info.lo, info.hi);
      if |bytes| == info.hi - info.lo then Some(Tensor(info.dtype, info.shape, bytes)) else None
  }

  /** A tensor that the header lists and the data holds is loaded with its type, its shape and its bytes; one
      that is not listed or not held is not loaded. */
  lemma LoadIs(header: map<string, Info>, data: seq<byte>, name: string)
    ensures name in header && header[name].lo <= header[name].hi <= |data| ==>
              Load(header, data, name) == Some(Tensor(header[name].dtype, header[name].shape, data[header[name].lo..header[name].hi]))
    ensures name !in header || (header[name].lo < header[name].hi && |data| < header[name].hi) ==> Load(header, data, name) == None
  {
  }

  function OldHeader(entries: seq<Entry>, n: nat): map<string, Info>
    requires n <= |entries|
  {
    if n == 0 then map[] else OldHeader(entries, n - 1)[entries[n - 1].name := entries[n - 1].info]
  }

  lemma {:induction false} OldHeaderAt(j: Job, i: nat, n: nat)
    requires JobOk(j) && i < n <= |j.entries|
    ensures j.entries[i].name in OldHeader(j.entries, n) && OldHeader(j.entries, n)[j.entries[i].name] == j.entries[i].info
  {
    if i + 1 < n {
      OldHeaderAt(j, i, n - 1);
    }
  }

  /** A tensor of the old file is named like the scale of a converted one. */
  ghost predicate Clash(j: Job, i: nat, k: nat)
    requires JobOk(j) && i < |j.entries| && k < |j.entries|
  {
    IsConverted(j, j.entries[i]) && j.entries[k].name == j.naming.scaleName(j.entries[i].name)
  }

  ghost predicate NoClash(j: Job)
    requires JobOk(j)
  {
    forall i, k {:trigger Clash(j, i, k)} :: 0 <= i < |j.entries| && 0 <= k < |j.entries| ==> !Clash(j, i, k)
  }

  /** An entry has its own places in the header. */
  ghost predicate InPlace(j: Job, i: nat, n: nat)
    requires JobOk(j) && i < |j.entries| && n <= |j.entries|
  {
    var e, h := j.entries[i], Header(j, n);
    && e.name in h && h[e.name] == PrimaryInfo(j, i)
    && (IsConverted(j, e) ==> j.naming.scaleName(e.name) in h && h[j.naming.scaleName(e.name)] == ScaleInfo(j, i))
  }

  lemma {:induction false} HeaderAt(j: Job, i: nat, n: nat)
    requires JobOk(j) && NamingOk(j.naming) && NoClash(j) && i < n <= |j.entries|
    ensures InPlace(j, i, n)
  {
    assert !Clash(j, i, n - 1) && !Clash(j, n - 1, i) && !Clash(j, i, i);
    if i + 1 < n {
      HeaderAt(j, i, n - 1);
    }
  }

  /** Without a clash every tensor that is not converted loads from the new file as it did from the old
      one, and every converted one loads as its int8 weight and its scale. */
  lemma MergeKeeps(j: Job, i: nat)
    requires JobOk(j) && NamingOk(j.naming) && NoClash(j) && i < |j.entries| && Convertible(j, |j.entries|) && Fits(j, |j.entries|)
    ensures var e, n := j.entries[i], |j.entries|;
      && (!(j.naming.picks(e.name) && e.info.dtype == BF16) ==>
            Load(Header(j, n), Body(j, n), e.name) == Load(OldHeader(j.entries, n), j.data, e.name))
      && (j.naming.picks(e.name) && e.info.dtype == BF16 ==>
            var c := Convert(j, i).value;
            && Load(Header(j, n), Body(j, n), e.name) == Some(Tensor(I8, [c.rows, c.columns], c.weight))
            && Load(Header(j, n), Body(j, n), j.naming.scaleName(e.name)) == Some(Tensor(BF16, [c.rows, 1], c.scale)))
  {
    HeaderAt(j, i, |j.entries|);
    OldHeaderAt(j, i, |j.entries|);
    BodyAt(j, i, |j.entries|);
  }

  /** Every tensor has its places exactly if there is no clash, where scales are not empty. */
  lemma AllThereExactly(j: Job)
    requires JobOk(j) && NamingOk(j.naming)
    requires forall i :: 0 <= i < |j.entries| && IsConverted(j, j.entries[i]) ==> Size(ScaleOf(j, i).source) > 0
    ensures NoClash(j) <==> forall i :: 0 <= i < |j.entries| ==> InPlace(j, i, |j.entries|)
  {
    var n := |j.entries|;
    if NoClash(j) {
      forall i | 0 <= i < n
        ensures InPlace(j, i, n)
      {
        HeaderAt(j, i, n);
      }
    } else {
      var i, k :| 0 <= i < n && 0 <= k < n && Clash(j, i, k);
      PlacesApart(j, i, k);
      assert !(InPlace(j, i, n) && InPlace(j, k, n));
    }
  }

  /** A scale that is not empty is not where a tensor has its place. */
  lemma PlacesApart(j: Job, i: nat, k: nat)
    requires JobOk(j) && i < |j.entries| && k < |j.entries| && Size(ScaleOf(j, i).source) > 0
    ensures PrimaryInfo(j, k) != ScaleInfo(j, i)
  {
    if k < i {
      StartGrows(j, k + 1, i);
    } else if i < k {
      StartGrows(j, i + 1, k);
    }
  }

  // ---------------------------------------------------------------------------------------------
  // No gaps and no overlaps
  // ---------------------------------------------------------------------------------------------

  ghost predicate Covers(info: Info, p: nat) {
    info.lo <= p < info.hi
  }

  /** The entry whose parts hold a position. */
  function EntryAt(j: Job, p: nat, n: nat): (i: nat)
    requires JobOk(j) && n <= |j.entries| && p < Start(j, n)
    ensures i < n && Start(j, i) <= p < Start(j, i + 1)
  {
    if Start(j, n - 1) <= p then n - 1 else EntryAt(j, p, n - 1)
  }

  /** Whatever the header lists is a part of some entry. */
  lemma {:induction false} HeaderFrom(j: Job, n: nat, name: string) returns (i: nat)
    requires JobOk(j) && n <= |j.entries| && name in Header(j, n)
    ensures i < n
    ensures
      || (name == j.entries[i].name && Header(j, n)[name] == PrimaryInfo(j, i))
      || (IsConverted(j, j.entries[i]) && name == j.naming.scaleName(j.entries[i].name) && Header(j, n)[name] == ScaleInfo(j, i))
  {
    var e := j.entries[n - 1];
    if name == e.name || (IsConverted(j, e) && name == j.naming.scaleName(e.name)) {
      i := n - 1;
    } else {
      i := HeaderFrom(j, n - 1, name);
    }
  }

  /** A tensor that holds a position between the start of an entry and that of the next is one of its
      parts. */
  lemma CoversOnce(j: Job, i: nat, p: nat, name: string)
    requires JobOk(j) && i < |j.entries| && Start(j, i) <= p < Start(j, i + 1)
    requires name in Header(j, |j.entries|) && Covers(Header(j, |j.entries|)[name], p)
    ensures name == if p < Middle(j, i) then j.entries[i].name else j.naming.scaleName(j.entries[i].name)
  {
    var k := HeaderFrom(j, |j.entries|, name);
    PartsInside(j, k);
    SameEntry(j, i, k, p);
  }

  /** A position is between the start of one entry and that of the next only. */
  lemma SameEntry(j: Job, i: nat, k: nat, p: nat)
    requires JobOk(j) && i < |j.entries| && Start(j, i) <= p < Start(j, i + 1)
    requires k < |j.entries| && Start(j, k) <= p < Start(j, k + 1)
    ensures i == k
  {
    if k < i {
      StartGrows(j, k + 1, i);
    } else if i < k {
      StartGrows(j, i + 1, k);
    }
  }

  lemma PartsInside(j: Job, k: nat)
    requires JobOk(j) && k < |j.entries|
    ensures PrimaryInfo(j, k).lo == Start(j, k) && PrimaryInfo(j, k).hi == Middle(j, k)
    ensures ScaleInfo(j, k).lo == Middle(j, k) && ScaleInfo(j, k).hi == Start(j, k + 1)
  {
  }

  /** Every byte of the new data section belongs to exactly one tensor. */
  lemma Tiles(j: Job, p: nat) returns (name: string)
    requires JobOk(j) && NamingOk(j.naming) && NoClash(j) && p < Start(j, |j.entries|)
    ensures name in Header(j, |j.entries|) && Covers(Header(j, |j.entries|)[name], p)
    ensures forall other :: other in Header(j, |j.entries|) && Covers(Header(j, |j.entries|)[other], p) ==> other == name
  {
    var n := |j.entries|;
    var i := EntryAt(j, p, n);
    HeaderAt(j, i, n);
    name := if p < Middle(j, i) then j.entries[i].name else j.naming.scaleName(j.entries[i].name);
    forall other | other in Header(j, n) && Covers(Header(j, n)[other], p)
      ensures other == name
    {
      CoversOnce(j, i, p, other);
    }
  }

  /** No part is empty. */
  predicate PartsFull(j: Job)
    requires JobOk(j)
  {
    forall i {:trigger Primary(j, i)} {:trigger ScaleOf(j, i)} :: 0 <= i < |j.entries| ==>
      Size(Primary(j, i).source) > 0 && (IsConverted(j, j.entries[i]) ==> Size(ScaleOf(j, i).source) > 0)
  }

  ghost predicate Listed(j: Job, p: nat)
    requires JobOk(j)
  {
    exists name :: name in Header(j, |j.entries|) && Covers(Header(j, |j.entries|)[name], p)
  }

  /** With no part empty, every byte of the new data section belongs to a tensor exactly if there is no
      clash: otherwise the part that lost its name is there and nobody can load it. */
  lemma TilesExactly(j: Job)
    requires JobOk(j) && NamingOk(j.naming) && PartsFull(j)
    ensures NoClash(j) <==> forall p: nat :: p < Start(j, |j.entries|) ==> Listed(j, p)
  {
    if NoClash(j) {
      forall p: nat | p < Start(j, |j.entries|)
        ensures Listed(j, p)
      {
        var name := Tiles(j, p);
      }
    } else {
      var i, k :| 0 <= i < |j.entries| && 0 <= k < |j.entries| && Clash(j, i, k);
      assert Size(Primary(j, k).source) > 0 && Size(ScaleOf(j, i).source) > 0;
      PartsHide(j, i, k);
    }
  }

  /** Where two parts have one name, the first byte of one of them is not listed. */
  lemma PartsHide(j: Job, i: nat, k: nat)
    requires JobOk(j) && i < |j.entries| && k < |j.entries| && i != k && j.entries[k].name == j.naming.scaleName(j.entries[i].name)
    requires Size(Primary(j, k).source) > 0 && Size(ScaleOf(j, i).source) > 0
    ensures Middle(j, i) < Start(j, |j.entries|) && Start(j, k) < Start(j, |j.entries|)
    ensures !Listed(j, Middle(j, i)) || !Listed(j, Start(j, k))
  {
    PartInside(j, k);
    ScaleInside(j, i);
    OneNameOnce(j, i, k);
  }

  lemma PartInside(j: Job, k: nat)
    requires JobOk(j) && k < |j.entries| && Size(Primary(j, k).source) > 0
    ensures Start(j, k) < Start(j, |j.entries|)
  {
    PartsInside(j, k);
    var middle := Middle(j, k);
    StartGrows(j, k + 1, |j.entries|);
  }

  lemma ScaleInside(j: Job, i: nat)
    requires JobOk(j) && i < |j.entries| && Size(ScaleOf(j, i).source) > 0
    ensures Middle(j, i) < Start(j, |j.entries|)
  {
    StartGrows(j, i + 1, |j.entries|);
  }

  /** One name lists one part only. */
  lemma OneNameOnce(j: Job, i: nat, k: nat)
    requires JobOk(j) && i < |j.entries| && k < |j.entries| && j.entries[k].name == j.naming.scaleName(j.entries[i].name)
    requires Size(Primary(j, k).source) > 0 && Size(ScaleOf(j, i).source) > 0
    ensures Listed(j, Middle(j, i)) && Listed(j, Start(j, k)) ==> i == k
  {
    if Listed(j, Middle(j, i)) && Listed(j, Start(j, k)) {
      var h, p, q := Header(j, |j.entries|), Middle(j, i), Start(j, k);
      var a :| a in h && Covers(h[a], p);
      var b :| b in h && Covers(h[b], q);
      CoversOnce(j, i, p, a);
      CoversOnce(j, k, q, b);
      var part := HeaderFrom(j, |j.entries|, a);
      OwnerOf(j, part, i, p);
      OwnerOf(j, part, k, q);
    }
  }

  lemma OwnerOf(j: Job, part: nat, i: nat, p: nat)
    requires JobOk(j) && part < |j.entries| && i < |j.entries|
    requires Start(j, part) <= p < Start(j, part + 1) && Start(j, i) <= p < Start(j, i + 1)
    ensures part == i
  {
    if part < i {
      StartGrows(j, part + 1, i);
    } else if i < part {
      StartGrows(j, i + 1, part);
    }
  }

  /** A shard that has a weight to convert and a tensor named like its scale. */
  predicate ClashJob(j: Job) {
    && |j.entries| == 2 && j.entries[0].info == Info(BF16, [1, 1], 0, 2) && j.entries[1].info == Info(BF16, [1], 2, 4)
    && JobOk(j) && j.data == [6, 7, 8, 9] && Convert(j, 0) == Some(Converted([3], [1, 2], 1, 1))
    && j.naming.picks(j.entries[0].name) && !j.naming.picks(j.entries[1].name)
    && j.entries[1].name == j.naming.scaleName(j.entries[0].name)
  }

  lemma ClashExample() returns (j: Job)
    ensures ClashJob(j) && j.naming == Gdn()
  {
    var name := "m" + (".linear_attn.out_proj" + WEIGHT);
    assert name[1..] == ".linear_attn.out_proj" + WEIGHT;
    GdnOk();
    assert Gdn().picks(name) && Gdn().scaleName(name) == ScaleName(name);
    j := Job([Entry(name, Info(BF16, [1, 1], 0, 2)), Entry(ScaleName(name), Info(BF16, [1], 2, 4))], [6, 7, 8, 9], Gdn(),
             (bytes, shape) => Some(Converted([3], [1, 2], 1, 1)));
  }

  lemma ClashParts(j: Job)
    requires ClashJob(j)
    ensures Convertible(j, 2) && Fits(j, 2) && Start(j, 1) == 3 && Start(j, 2) == 5
    ensures PrimaryInfo(j, 1) == Info(BF16, [1], 3, 5) && Primary(j, 1).source == Copy(2, 4)
    ensures IsConverted(j, j.entries[0]) && !IsConverted(j, j.entries[1]) && Size(ScaleOf(j, 0).source) == 2
  {
    assert Primary(j, 0).source == Made([3]) && ScaleOf(j, 0).source == Made([1, 2]);
    assert Primary(j, 1).source == Copy(2, 4) && ScaleOf(j, 1).source == Made([]);
    assert Start(j, 0) == 0;
  }

  lemma ClashLoads(j: Job)
    requires ClashJob(j)
    ensures Convertible(j, 2) && Fits(j, 2) && !NoClash(j) && !InPlace(j, 0, 2) && IsConverted(j, j.entries[0])
    ensures Load(Header(j, 2), Body(j, 2), j.entries[1].name) == Some(Tensor(BF16, [1], [8, 9]))
  {
    ClashParts(j);
    assert Clash(j, 0, 1);
    assert Header(j, 2)[j.entries[1].name] == PrimaryInfo(j, 1);
    PlacesApart(j, 0, 1);
    BodyAt(j, 1, 2);
    assert j.data[2..4] == [8, 9];
  }

  /** There the scale `[1, 2]` is written and cannot be loaded: its name gives the other tensor. */
  lemma ClashLosesScale() returns (j: Job)
    ensures JobOk(j) && j.naming == Gdn() && |j.entries| == 2 && Convertible(j, 2) && Fits(j, 2)
    ensures !NoClash(j) && !InPlace(j, 0, 2)
    ensures IsConverted(j, j.entries[0]) && Convert(j, 0) == Some(Converted([3], [1, 2], 1, 1))
    ensures Load(Header(j, 2), Body(j, 2), j.naming.scaleName(j.entries[0].name)) == Some(Tensor(BF16, [1], [8, 9]))
  {
    j := ClashExample();
    ClashLoads(j);
  }

  // ---------------------------------------------------------------------------------------------
  // The index
  // ---------------------------------------------------------------------------------------------

  /** The sizes of the tensors of the old file, and of the entries without a gap between them. */
  function OldSize(j: Job, n: nat): nat
    requires JobOk(j) && n <= |j.entries|
  {
    if n == 0 then 0 else OldSize(j, n - 1) + (j.entries[n - 1].info.hi - j.entries[n - 1].info.lo)
  }

  /** An entry starts where the one before it ends. */
  predicate Follows(j: Job, i: nat)
    requires i < |j.entries|
  {
    j.entries[i].info.lo == if i == 0 then 0 else j.entries[i - 1].info.hi
  }

  predicate GapFree(j: Job) {
    forall i: nat :: i < |j.entries| ==> Follows(j, i)
  }

  lemma {:induction false} GapFreeEnd(j: Job, n: nat)
    requires JobOk(j) && GapFree(j) && n <= |j.entries|
    ensures OldSize(j, n) == if n == 0 then 0 else j.entries[n - 1].info.hi
  {
    if n > 0 {
      GapFreeEnd(j, n - 1);
      assert Follows(j, n - 1);
    }
  }

  function NewTotal(j: Job, oldTotal: int): int
    requires JobOk(j) && j.entries != []
  {
    oldTotal - (j.entries[|j.entries| - 1].info.hi - Start(j, |j.entries|))
  }

  /** With `rest` bytes in the other shards, a right total stays right exactly if the last entry ends
      where the sizes add up to, as it does without gaps. */
  lemma TotalStaysRight(j: Job, rest: int)
    requires JobOk(j) && j.entries != []
    ensures NewTotal(j, rest + OldSize(j, |j.entries|)) == rest + Start(j, |j.entries|)
            <==> j.entries[|j.entries| - 1].info.hi == OldSize(j, |j.entries|)
    ensures GapFree(j) ==> j.entries[|j.entries| - 1].info.hi == OldSize(j, |j.entries|)
  {
    if GapFree(j) {
      GapFreeEnd(j, |j.entries|);
    }
  }

  /** Two bytes nobody needs before the only tensor: the new total is too small by two. */
  lemma GapMiscounts() returns (j: Job)
    ensures JobOk(j) && j.entries != [] && !GapFree(j) && Fits(j, |j.entries|)
    ensures NewTotal(j, OldSize(j, |j.entries|)) + 2 == Start(j, |j.entries|)
  {
    j := Job([Entry("a", Info(I8, [2], 2, 4))], [0, 0, 1, 1], Gdn(), (bytes, shape) => None);
    assert Start(j, 0) == 0 && OldSize(j, 0) == 0;
    if GapFree(j) {
      GapFreeEnd(j, 1);
      assert false;
    }
  }

  /** Scales that the index does not know yet are added to it. */
  function NewIndex(header: map<string, Info>, index: map<string, string>, shard: string): map<string, string> {
    map name | name in header.Keys + index.Keys && (name in index || EndsWith(name, SCALE)) ::
      if name in index then index[name] else shard
  }

  /** The new index has the names of the old one, with their files, and the names of the new header that end
      like a scale's, which are in this shard. */
  /** An index has the old names with their files, and every new scale with the shard. */
  ghost predicate IndexFor(now: map<string, string>, header: map<string, Info>, index: map<string, string>, shard: string) {
    && (forall name :: name in now <==> name in index || (name in header && EndsWith(name, ".weight_scale")))
    && (forall name :: name in now ==> now[name] == if name in index then index[name] else shard)
  }

  lemma IndexIs(header: map<string, Info>, index: map<string, string>, shard: string)
    ensures IndexFor(NewIndex(header, index, shard), header, index, shard)
  {
  }

  /** An index that lists every tensor of the old file lists every tensor of the new one: what it said before
      it still says, and whatever is new is in this shard. */
  lemma IndexComplete(j: Job, index: map<string, string>, shard: string)
    requires JobOk(j) && forall i :: 0 <= i < |j.entries| ==> j.entries[i].name in index
    requires forall a {:trigger j.naming.scaleName(a)} :: j.naming.picks(a) ==> EndsWith(j.naming.scaleName(a), SCALE)
    ensures forall name :: name in Header(j, |j.entries|) ==> name in NewIndex(Header(j, |j.entries|), index, shard)
    ensures forall name :: name in index ==>
              name in NewIndex(Header(j, |j.entries|), index, shard) && NewIndex(Header(j, |j.entries|), index, shard)[name] == index[name]
    ensures forall name :: name in Header(j, |j.entries|) && name !in index ==> NewIndex(Header(j, |j.entries|), index, shard)[name] == shard
  {
    forall name | name in Header(j, |j.entries|)
      ensures name in NewIndex(Header(j, |j.entries|), index, shard)
    {
      var i := HeaderFrom(j, |j.entries|, name);
    }
  }

  // ---------------------------------------------------------------------------------------------
  // The whole rewrite
  // ---------------------------------------------------------------------------------------------

  datatype Shard = Shard(header: map<string, Info>, data: seq<byte>, total: int, index: map<string, string>)

  /** Both passes: header and data of the new file. */
  method TwoPasses(j: Job, chunk: nat) returns (r: Result<(map<string, Info>, seq<byte>)>)
    requires JobOk(j) && chunk > 0
    ensures r.ConversionFailed? <==> !Convertible(j, |j.entries|)
    ensures r.ShortRead? <==> Convertible(j, |j.entries|) && !Fits(j, |j.entries|)
    ensures !r.EmptyShard?
    ensures r.Ok? ==> r.value == (Header(j, |j.entries|), Body(j, |j.entries|)) && |r.value.1| == Start(j, |j.entries|)
  {
    var d := Plan(j);
    if d == None {
      return ConversionFailed;
    }
    PlanWritesBody(j, |j.entries|);
    SourcesSized(j, |j.entries|);
    var data := WriteAll(d.value.plan, j.data, chunk);
    if data == None {
      return ShortRead;
    }
    assert |data.value| == d.value.size;
    r := Ok((d.value.header, data.value));
  }

  /** Both passes and the index. A shard without tensors is written, but then has no last entry. */
  method Merge(j: Job, chunk: nat, oldTotal: int, index: map<string, string>, shard: string) returns (r: Result<Shard>)
    requires JobOk(j) && chunk > 0
    ensures r.ConversionFailed? <==> !Convertible(j, |j.entries|)
    ensures r.ShortRead? <==> Convertible(j, |j.entries|) && !Fits(j, |j.entries|)
    ensures r.EmptyShard? <==> j.entries == []
    ensures r.Ok? ==>
              && Convertible(j, |j.entries|) && Fits(j, |j.entries|) && j.entries != []
              && r.value == Shard(Header(j, |j.entries|), Body(j, |j.entries|), NewTotal(j, oldTotal), NewIndex(Header(j, |j.entries|), index, shard))
              && r.value.total == oldTotal - (j.entries[|j.entries| - 1].info.hi - |r.value.data|)
              && IndexFor(r.value.index, r.value.header, index, shard)
  {
    var passes := TwoPasses(j, chunk);
    match passes
    case ConversionFailed => r := ConversionFailed;
    case ShortRead => r := ShortRead;
    case Ok((header, data)) =>
      if j.entries == [] {
        return EmptyShard;
      }
      IndexIs(header, index, shard);
      var saved := j.entries[|j.entries| - 1].info.hi - |data|;
      r := Ok(Shard(header, data, oldTotal - saved, NewIndex(header, index, shard)));
  }

  // ---------------------------------------------------------------------------------------------
  // The header on disk
  // ---------------------------------------------------------------------------------------------

  /** `n` as `k` bytes, the lowest first. */
  function Little(n: nat, k: nat): (bytes: seq<byte>)
    ensures |bytes| == k
  {
    if k == 0 then [] else [n % 256] + Little(n / 256, k - 1)
  }

  function FromLittle(bytes: seq<byte>): nat {
    if bytes == [] then 0 else bytes[0] + 256 * FromLittle(bytes[1..])
  }

  function Pow256(k: nat): nat {
    if k == 0 then 1 else 256 * Pow256(k - 1)
  }

  lemma {:induction false} LittleBack(n: nat, k: nat)
    requires n < Pow256(k)
    ensures FromLittle(Little(n, k)) == n
  {
    if k > 0 {
      LittleBack(n / 256, k - 1);
      assert Little(n, k)[1..] == Little(n / 256, k - 1);
    }
  }

  /** Byte `i` is the `i`th digit to the base 256, the lowest first. */
  lemma {:induction false} LittleAt(n: nat, k: nat, i: nat)
    requires i < k
    ensures Pow256(i) > 0 && Little(n, k)[i] == n / Pow256(i) % 256
  {
    if i > 0 {
      LittleAt(n / 256, k - 1, i - 1);
      PowPositive(i - 1);
      DivideTwice(n, 256, Pow256(i - 1));
    }
  }

  lemma {:induction false} PowPositive(k: nat)
    ensures Pow256(k) > 0
  {
    if k > 0 {
      PowPositive(k - 1);
    }
  }

  lemma DivideTwice(n: nat, a: nat, b: nat)
    requires a > 0 && b > 0
    ensures a * b > 0 && n / a / b == n / (a * b)
  {
    Grid.Divide(a, n);
    Grid.Divide(b, n / a);
    QuotientIs(n, a, b, n / a, n % a, n / a / b, n / a % b);
  }

  lemma QuotientIs(n: nat, a: nat, b: nat, q: nat, r: nat, s: nat, t: nat)
    requires n == a * q + r && q == b * s + t && r < a && t < b
    ensures a * b > 0 && n / (a * b) == s
  {
    Products(a, b, s, t, r);
    Slots.RemainderUnique(n, s, a * t + r, a * b);
  }

  lemma Products(a: nat, b: nat, s: nat, t: nat, r: nat)
    requires r < a && t < b
    ensures a * b > 0 && a * t + r < a * b && a * (b * s + t) + r == s * (a * b) + (a * t + r)
  {
    Bound(a, b, t, r);
    Nest(a, b, s);
    Grid.Distribute(b * s, t, a);
  }

  lemma Bound(a: nat, b: nat, t: nat, r: nat)
    requires r < a && t < b
    ensures a * b > 0 && a * t + r < a * b
  {
    Grid.Inside(a, t, r, b);
  }

  lemma Nest(a: nat, b: nat, s: nat)
    ensures a * (b * s) == s * (a * b)
  {
  }

  type HeaderMap = map<string, Info>

  /** Text of a header, and the way back, which passes over spaces at the end. */
  datatype Json = Json(dumps: HeaderMap -> seq<byte>, loads: seq<byte> -> Option<HeaderMap>)

  ghost predicate JsonOk(json: Json) {
    forall h, spaces: nat {:trigger json.dumps(h), Spaces(spaces)} :: json.loads(json.dumps(h) + Spaces(spaces)) == Some(h)
  }

  function Spaces(n: nat): (s: seq<byte>)
    ensures |s| == n
  {
    seq(n, _ => 32)
  }

  function Padding(n: nat): (pad: nat)
    ensures pad < 8 && (n + pad) % 8 == 0
  {
    (8 - n % 8) % 8
  }

  function PackHeader(json: Json, h: HeaderMap): seq<byte> {
    var padded := json.dumps(h) + Spaces(Padding(|json.dumps(h)|));
    Little(|padded|, 8) + padded
  }

  /** The header of a file, and where its data starts. */
  function ReadHeader(json: Json, file: seq<byte>): Option<(HeaderMap, nat)> {
    if |file| < 8 then None
    else
      var n := FromLittle(file[..8]);
      var text := if 8 + n <= |file| then file[8..8 + n] else file[8..];
      if json.loads(text) == None then None else Some((json.loads(text).value, 8 + n))
  }

  /** A file that starts with a packed header gives it back, with the data right behind it at a
      multiple of eight. */
  lemma HeaderBack(json: Json, h: HeaderMap, data: seq<byte>, packed: seq<byte>, file: seq<byte>)
    requires JsonOk(json) && |json.dumps(h)| + 8 < Pow256(8) && packed == PackHeader(json, h) && file == packed + data
    ensures ReadHeader(json, file) == Some((h, |packed|)) && file[|packed|..] == data && |packed| % 8 == 0
  {
    var length, padded := PackedIs(json, h, packed);
    TextBack(json, length, padded, h, data, file);
  }

  lemma PackedIs(json: Json, h: HeaderMap, packed: seq<byte>) returns (length: seq<byte>, padded: seq<byte>)
    requires JsonOk(json) && packed == PackHeader(json, h)
    ensures packed == length + padded && |packed| == 8 + |padded| && |packed| % 8 == 0
    ensures length == Little(|padded|, 8) && json.loads(padded) == Some(h) && |padded| < |json.dumps(h)| + 8
  {
    padded := PaddedLoads(json, h);
    length := HeaderOf(json, h, padded);
  }

  lemma PaddedLoads(json: Json, h: HeaderMap) returns (padded: seq<byte>)
    requires JsonOk(json)
    ensures padded == json.dumps(h) + Spaces(Padding(|json.dumps(h)|)) && json.loads(padded) == Some(h)
    ensures |padded| % 8 == 0 && |padded| < |json.dumps(h)| + 8
  {
    padded := json.dumps(h) + Spaces(Padding(|json.dumps(h)|));
  }

  lemma HeaderOf(json: Json, h: HeaderMap, padded: seq<byte>) returns (length: seq<byte>)
    requires padded == json.dumps(h) + Spaces(Padding(|json.dumps(h)|))
    ensures length == Little(|padded|, 8) && |length| == 8 && PackHeader(json, h) == length + padded
  {
    length := Little(|padded|, 8);
  }

  lemma TextBack(json: Json, length: seq<byte>, text: seq<byte>, h: HeaderMap, data: seq<byte>, file: seq<byte>)
    requires |text| < Pow256(8) && json.loads(text) == Some(h) && length == Little(|text|, 8) && file == length + text + data
    ensures ReadHeader(json, file) == Some((h, 8 + |text|)) && file[8 + |text|..] == data
  {
    LittleBack(|text|, 8);
    FileParts(length, text, data);
  }

  lemma FileParts(length: seq<byte>, text: seq<byte>, data: seq<byte>)
    ensures var file := length + text + data;
      && file[..|length|] == length && file[|length|..|length| + |text|] == text && file[|length| + |text|..] == data
  {
  }

  // ---------------------------------------------------------------------------------------------
  // File to file
  // ---------------------------------------------------------------------------------------------

  /** A tensor as loaded from a file. */
  function LoadFrom(json: Json, file: seq<byte>, name: string): Option<Tensor> {
    match ReadHeader(json, file)
    case None => None
    case Some((header, start)) => Load(header, if start <= |file| then file[start..] else [], name)
  }

  /** The entries and the data of a job are those of a file. */
  ghost predicate ReadFrom(j: Job, json: Json, file: seq<byte>) {
    var r := ReadHeader(json, file);
    r.Some? && r.value.0 == OldHeader(j.entries, |j.entries|) && r.value.1 <= |file| && j.data == file[r.value.1..]
  }

  function NewFile(j: Job, json: Json): seq<byte>
    requires JobOk(j) && Fits(j, |j.entries|)
  {
    PackHeader(json, Header(j, |j.entries|)) + Body(j, |j.entries|)
  }

  /** The rewrite from file to file: without a clash every tensor that is not converted loads from the
      new file as from the old one, and every converted one as its int8 weight and its scale. */
  lemma FileKeeps(j: Job, json: Json, file: seq<byte>, i: nat)
    requires JobOk(j) && NamingOk(j.naming) && NoClash(j) && i < |j.entries| && Convertible(j, |j.entries|) && Fits(j, |j.entries|)
    requires JsonOk(json) && |json.dumps(Header(j, |j.entries|))| + 8 < Pow256(8) && ReadFrom(j, json, file)
    ensures var e := j.entries[i];
      && (!(j.naming.picks(e.name) && e.info.dtype == BF16) ==> LoadFrom(json, NewFile(j, json), e.name) == LoadFrom(json, file, e.name))
      && (j.naming.picks(e.name) && e.info.dtype == BF16 ==>
            var c := Convert(j, i).value;
            && LoadFrom(json, NewFile(j, json), e.name) == Some(Tensor(I8, [c.rows, c.columns], c.weight))
            && LoadFrom(json, NewFile(j, json), j.naming.scaleName(e.name)) == Some(Tensor(BF16, [c.rows, 1], c.scale)))
  {
    var packed := PackHeader(json, Header(j, |j.entries|));
    HeaderBack(json, Header(j, |j.entries|), Body(j, |j.entries|), packed, NewFile(j, json));
    MergeKeeps(j, i);
  }
}

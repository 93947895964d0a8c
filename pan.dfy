/**
 * The layered protocol decoder framework ("pan"): a decode request that walks
 * a window over a captured frame, a static table of protocol headers reached
 * by name or by type code, and the PAN_NEXT descent that hands the request to
 * the decoder of the next encapsulated layer.
 */
module Pan {
  import opened Wrappers

  type Byte = bv8

  /** The placeholder rendered for a field no decoder could resolve. */
  const Unknown: string := "<Unknown>"

  /** The four things a decode request can ask for (pan_req_t). */
  datatype Request = SrcString | DstString | ProtoString | InfoString

  /** The enumerator value C gives each request kind. */
  function RequestCode(r: Request): (c: int)
    ensures 0 <= c < 4
  {
    match r
    case SrcString => 0
    case DstString => 1
    case ProtoString => 2
    case InfoString => 3
  }

  /** Reads an integer back as a request kind; only the four enumerator values are kinds. */
  function RequestOfCode(c: int): (r: Option<Request>)
    ensures r.Some? <==> 0 <= c < 4
    ensures r.Some? ==> RequestCode(r.value) == c
  {
    if c == 0 then Some(SrcString)
    else if c == 1 then Some(DstString)
    else if c == 2 then Some(ProtoString)
    else if c == 3 then Some(InfoString)
    else None
  }

  lemma RequestCodeRoundTrip(r: Request)
    ensures RequestOfCode(RequestCode(r)) == Some(r)
  {
  }

  /**
   * A decoder entry point (pan_t). Its parsing is not modelled: a decoder is
   * the size of the header it consumes, the fragment it writes for each
   * request kind it answers, and the type code of the layer it hands on to.
   */
  datatype Decoder = Decoder(size: nat, output: map<Request, string>, next: Option<int>)

  /** One row of the static protocol table (pan_header_t); `pan` may be NULL. */
  datatype Header = Header(name: string, description: string, pan: Option<Decoder>, typ: int)

  type Table = seq<Header>

  /** A header whose decoder is present consumes at least one byte. */
  predicate HeaderOk(h: Option<Header>)
  {
    h.Some? && h.value.pan.Some? ==> h.value.pan.value.size >= 1
  }

  predicate WellFormed(table: Table)
  {
    forall j :: 0 <= j < |table| ==> HeaderOk(Some(table[j]))
  }

  predicate UniqueNames(table: Table)
  {
    forall i, j :: 0 <= i < j < |table| ==> table[i].name != table[j].name
  }

  predicate UniqueTypes(table: Table)
  {
    forall i, j :: 0 <= i < j < |table| ==> table[i].typ != table[j].typ
  }

  /** `d` is the decoder stored in some row of the table. */
  predicate InTable(table: Table, d: Decoder)
  {
    exists j :: 0 <= j < |table| && table[j].pan == Some(d)
  }

  // ---------------------------------------------------------------------
  // Table lookups
  // ---------------------------------------------------------------------

  /** Index of the first row named `name`, if any. */
  function FindName(table: Table, name: string): (r: Option<nat>)
    ensures r.Some? ==> r.value < |table| && table[r.value].name == name
    ensures r.Some? ==> forall j :: 0 <= j < r.value ==> table[j].name != name
    ensures r.None? <==> forall j :: 0 <= j < |table| ==> table[j].name != name
  {
    if table == [] then None
    else if table[0].name == name then Some(0)
    else match FindName(table[1..], name)
      case None => None
      case Some(i) => Some(i + 1)
  }

  /** Index of the first row with type code `t`, if any. */
  function FindType(table: Table, t: int): (r: Option<nat>)
    ensures r.Some? ==> r.value < |table| && table[r.value].typ == t
    ensures r.Some? ==> forall j :: 0 <= j < r.value ==> table[j].typ != t
    ensures r.None? <==> forall j :: 0 <= j < |table| ==> table[j].typ != t
  {
    if table == [] then None
    else if table[0].typ == t then Some(0)
    else match FindType(table[1..], t)
      case None => None
      case Some(i) => Some(i + 1)
  }

  /** pan_stoi: the type code registered under a protocol name. */
  function StoI(table: Table, name: string): (r: Option<int>)
    ensures r.Some? <==> exists j :: 0 <= j < |table| && table[j].name == name
    ensures r.Some? ==> exists j :: 0 <= j < |table| && table[j].name == name && table[j].typ == r.value
  {
    match FindName(table, name)
    case None => None
    case Some(i) => Some(table[i].typ)
  }

  /** pan_itos: the protocol name registered under a type code. */
  function ItoS(table: Table, t: int): (r: Option<string>)
    ensures r.Some? <==> exists j :: 0 <= j < |table| && table[j].typ == t
    ensures r.Some? ==> exists j :: 0 <= j < |table| && table[j].typ == t && table[j].name == r.value
  {
    match FindType(table, t)
    case None => None
    case Some(i) => Some(table[i].name)
  }

  /** The header row registered under a type code: what a decoder hands to PAN_NEXT. */
  function HeaderOf(table: Table, t: int): (r: Option<Header>)
    ensures r.Some? <==> exists j :: 0 <= j < |table| && table[j].typ == t
    ensures r.Some? ==> exists j :: 0 <= j < |table| && table[j] == r.value && r.value.typ == t
    ensures WellFormed(table) ==> HeaderOk(r)
  {
    match FindType(table, t)
    case None => None
    case Some(i) => Some(table[i])
  }

  /** pan_itop: the decoder registered under a type code; a missing row or a NULL entry gives None. */
  function ItoP(table: Table, t: int): (r: Option<Decoder>)
    ensures r.Some? ==> InTable(table, r.value)
    ensures r.Some? ==> exists j :: 0 <= j < |table| && table[j].typ == t && table[j].pan == r
    ensures (forall j :: 0 <= j < |table| ==> table[j].typ != t) ==> r.None?
    ensures WellFormed(table) && r.Some? ==> r.value.size >= 1
  {
    match HeaderOf(table, t)
    case None => None
    case Some(h) => h.pan
  }

  /** pan_itos(pan_stoi(n)) == n once type codes are unique. */
  lemma StoIThenItoS(table: Table, name: string)
    requires UniqueTypes(table)
    requires StoI(table, name).Some?
    ensures ItoS(table, StoI(table, name).value) == Some(name)
  {
  }

  /** pan_stoi(pan_itos(t)) == t once names are unique. */
  lemma ItoSThenStoI(table: Table, t: int)
    requires UniqueNames(table)
    requires ItoS(table, t).Some?
    ensures StoI(table, ItoS(table, t).value) == Some(t)
  {
  }

  /** With unique type codes, pan_itop(t) is exactly the decoder stored with t. */
  lemma ItoPIsStoredDecoder(table: Table, k: nat)
    requires UniqueTypes(table)
    requires k < |table|
    ensures ItoP(table, table[k].typ) == table[k].pan
  {
  }

  // ---------------------------------------------------------------------
  // The decode chain as a specification
  // ---------------------------------------------------------------------

  /** One decoder invocation: which decoder ran, on which window, for which request. */
  datatype Visit = Visit(decoder: Decoder, off: int, len: int, req: Request)

  /** The header a decoder hands on to, found by its next-layer type code. */
  function NextHeader(table: Table, d: Decoder): (r: Option<Header>)
    ensures WellFormed(table) ==> HeaderOk(r)
  {
    if d.next.Some? then HeaderOf(table, d.next.value) else None
  }

  /** PAN_NEXT calls the next decoder only when header and decoder exist and bytes remain past `size`. */
  predicate Descends(h: Option<Header>, len: int, size: nat)
  {
    h.Some? && h.value.pan.Some? && len > size
  }

  /**
   * The decoder invocations made when `d` runs on the window of `len` bytes at
   * `off`: `d` itself, then whatever its PAN_NEXT descent runs.
   */
  function Run(table: Table, d: Decoder, off: int, len: int, req: Request): seq<Visit>
    requires WellFormed(table) && d.size >= 1 && len >= 0
    decreases len, 1
  {
    [Visit(d, off, len, req)] + Descent(table, NextHeader(table, d), d.size, off, len, req)
  }

  /** The decoder invocations made by PAN_NEXT(p, h, size) on the window of `len` bytes at `off`. */
  function Descent(table: Table, h: Option<Header>, size: nat, off: int, len: int, req: Request): seq<Visit>
    requires WellFormed(table) && HeaderOk(h) && size >= 1 && len >= 0
    decreases len, 0
  {
    if Descends(h, len, size) then Run(table, h.value.pan.value, off + size, len - size, req) else []
  }

  /**
   * Every descent consumes at least one byte, so a chain on `len` bytes makes
   * at most max(1, len) decoder invocations.
   */
  lemma {:induction false} RunDepth(table: Table, d: Decoder, off: int, len: int, req: Request)
    requires WellFormed(table) && d.size >= 1 && len >= 0
    ensures 1 <= |Run(table, d, off, len, req)| <= (if len == 0 then 1 else len)
    decreases len
  {
    var h := NextHeader(table, d);
    if Descends(h, len, d.size) {
      RunDepth(table, h.value.pan.value, off + d.size, len - d.size, req);
    }
  }

  /** What a decoder writes for a request: its fragment, if it answers that kind and its header fits. */
  function Contribution(d: Decoder, req: Request, len: int): seq<string>
  {
    if len >= d.size && req in d.output then [d.output[req]] else []
  }

  /** The fragments a sequence of invocations writes, in order. */
  function Fragments(vs: seq<Visit>): seq<string>
  {
    if vs == [] then [] else Contribution(vs[0].decoder, vs[0].req, vs[0].len) + Fragments(vs[1..])
  }

  lemma {:induction false} FragmentsAppend(a: seq<Visit>, b: seq<Visit>)
    ensures Fragments(a + b) == Fragments(a) + Fragments(b)
  {
    if a == [] {
      assert a + b == b;
    } else {
      assert (a + b)[1..] == a[1..] + b;
      FragmentsAppend(a[1..], b);
    }
  }

  /**
   * pan_input's answer: the last fragment the chain wrote for the request, or
   * the placeholder when the link type has no decoder or nothing was written.
   */
  function Render(table: Table, req: Request, dlt: int, len: nat): string
    requires WellFormed(table)
  {
    match ItoP(table, dlt)
    case None => Unknown
    case Some(d) =>
      var out := Fragments(Run(table, d, 0, len, req));
      if out == [] then Unknown else out[|out| - 1]
  }

  // ---------------------------------------------------------------------
  // Properties of the decode chain
  // ---------------------------------------------------------------------

  /** Unfolding Run once: the decoder itself, then its PAN_NEXT descent. */
  lemma RunUnfold(table: Table, d: Decoder, off: int, len: int, req: Request)
    requires WellFormed(table) && d.size >= 1 && len >= 0
    ensures Run(table, d, off, len, req) ==
              [Visit(d, off, len, req)] + Descent(table, NextHeader(table, d), d.size, off, len, req)
    ensures Fragments(Run(table, d, off, len, req)) ==
              Contribution(d, req, len) + Fragments(Descent(table, NextHeader(table, d), d.size, off, len, req))
  {
  }

  /** The decoder PAN_NEXT hands on to is a table decoder. */
  lemma NextInTable(table: Table, d: Decoder)
    requires NextHeader(table, d).Some? && NextHeader(table, d).value.pan.Some?
    ensures InTable(table, NextHeader(table, d).value.pan.value)
  {
  }

  /**
   * Consecutive invocations in `r` are PAN_NEXT descents: the caller had more
   * bytes than its header size, the callee's window starts right after that
   * header and ends where the caller's does, the request kind is passed on
   * unchanged, and the callee is a table decoder.
   */
  ghost predicate Chained(table: Table, r: seq<Visit>)
    decreases |r|
  {
    |r| <= 1 ||
    (&& r[0].len > r[0].decoder.size
     && r[1].off == r[0].off + r[0].decoder.size
     && r[1].len == r[0].len - r[0].decoder.size
     && r[1].req == r[0].req
     && InTable(table, r[1].decoder)
     && Chained(table, r[1..]))
  }

  /** Every decode chain is a chain of PAN_NEXT descents that starts at the caller's window. */
  lemma {:induction false} RunSteps(table: Table, d: Decoder, off: int, len: int, req: Request)
    requires WellFormed(table) && d.size >= 1 && len >= 0
    ensures Run(table, d, off, len, req)[0] == Visit(d, off, len, req)
    ensures Chained(table, Run(table, d, off, len, req))
    decreases len
  {
    var h := NextHeader(table, d);
    var r := Run(table, d, off, len, req);
    RunUnfold(table, d, off, len, req);
    if Descends(h, len, d.size) {
      var e := h.value.pan.value;
      var s := Run(table, e, off + d.size, len - d.size, req);
      RunSteps(table, e, off + d.size, len - d.size, req);
      assert r == [Visit(d, off, len, req)] + s;
      assert r[1..] == s && r[1] == s[0];
      NextInTable(table, d);
    } else {
      assert |r| == 1;
    }
  }

  /**
   * Along a chain every window is a suffix of the first one: it starts no
   * earlier, ends exactly where the first ends, and is non-empty after the
   * first step.
   */
  lemma {:induction false} ChainedWindows(table: Table, r: seq<Visit>, k: nat)
    requires k < |r|
    requires Chained(table, r) && 0 <= r[0].len
    ensures r[0].off <= r[k].off && r[k].off + r[k].len == r[0].off + r[0].len
    ensures r[k].req == r[0].req
    ensures k > 0 ==> r[k].len >= 1
    decreases k
  {
    if k > 0 {
      ChainedWindows(table, r[1..], k - 1);
    }
  }

  /** The bytes from `b` to `c` are the suffix, from `b`, of the window from `a` to `c`. */
  lemma SuffixOfWindow(buf: seq<Byte>, a: int, b: int, c: int)
    requires 0 <= a <= b <= c <= |buf|
    ensures buf[b..c] == buf[a..c][b - a..]
  {
  }

  /** Started on a window inside the frame, every layer of a chain reads a suffix of that window and nothing past its end. */
  lemma ChainedWindowIsSuffix(table: Table, buf: seq<Byte>, r: seq<Visit>, k: nat)
    requires k < |r|
    requires Chained(table, r)
    requires 0 <= r[0].off && 0 <= r[0].len && r[0].off + r[0].len <= |buf|
    ensures r[0].off <= r[k].off <= r[k].off + r[k].len == r[0].off + r[0].len <= |buf|
    ensures buf[r[k].off..r[k].off + r[k].len] == buf[r[0].off..r[0].off + r[0].len][r[k].off - r[0].off..]
  {
    ChainedWindows(table, r, k);
    SuffixOfWindow(buf, r[0].off, r[k].off, r[0].off + r[0].len);
  }

  /** The layers a chain visits, and their windows, do not depend on the request kind. */
  lemma {:induction false} RunIndependentOfRequest(table: Table, d: Decoder, off: int, len: int, a: Request, b: Request)
    requires WellFormed(table) && d.size >= 1 && len >= 0
    ensures var ra, rb := Run(table, d, off, len, a), Run(table, d, off, len, b);
      && |ra| == |rb|
      && forall i :: 0 <= i < |ra| ==>
           ra[i].decoder == rb[i].decoder && ra[i].off == rb[i].off && ra[i].len == rb[i].len
    decreases len
  {
    var h := NextHeader(table, d);
    if Descends(h, len, d.size) {
      RunIndependentOfRequest(table, h.value.pan.value, off + d.size, len - d.size, a, b);
    }
  }

  predicate Produces(table: Table, req: Request, s: string)
  {
    exists j :: 0 <= j < |table| && table[j].pan.Some? &&
      req in table[j].pan.value.output && table[j].pan.value.output[req] == s
  }

  /** Every string in `f` is the `req` output of some table row. */
  ghost predicate AllProduced(table: Table, req: Request, f: seq<string>)
  {
    forall k :: 0 <= k < |f| ==> Produces(table, req, f[k])
  }

  lemma AllProducedAppend(table: Table, req: Request, a: seq<string>, b: seq<string>)
    requires AllProduced(table, req, a) && AllProduced(table, req, b)
    ensures AllProduced(table, req, a + b)
  {
    forall k | 0 <= k < |a + b|
      ensures Produces(table, req, (a + b)[k])
    {
      if k >= |a| {
        assert (a + b)[k] == b[k - |a|];
      }
    }
  }

  /** A table decoder's own fragment is that request's output of its row. */
  lemma ContributionProduced(table: Table, d: Decoder, req: Request, len: int)
    requires InTable(table, d)
    ensures AllProduced(table, req, Contribution(d, req, len))
  {
    var c := Contribution(d, req, len);
    if c != [] {
      var j :| 0 <= j < |table| && table[j].pan == Some(d);
      assert Produces(table, req, c[0]);
    }
  }

  /** Every fragment a chain started from a table decoder writes is that request's output of some table row. */
  lemma {:induction false} RunFragmentsFromTable(table: Table, d: Decoder, off: int, len: int, req: Request)
    requires WellFormed(table) && d.size >= 1 && len >= 0
    requires InTable(table, d)
    ensures AllProduced(table, req, Fragments(Run(table, d, off, len, req)))
    decreases len
  {
    var h := NextHeader(table, d);
    var c := Contribution(d, req, len);
    var rest := Fragments(Descent(table, h, d.size, off, len, req));
    RunUnfold(table, d, off, len, req);
    ContributionProduced(table, d, req, len);
    if Descends(h, len, d.size) {
      NextInTable(table, d);
      RunFragmentsFromTable(table, h.value.pan.value, off + d.size, len - d.size, req);
    }
    AllProducedAppend(table, req, c, rest);
  }

  /**
   * pan_input renders either the placeholder or a fragment some table row
   * writes for exactly the requested kind.
   */
  lemma RenderOrigin(table: Table, req: Request, dlt: int, len: nat)
    requires WellFormed(table)
    ensures Render(table, req, dlt, len) == Unknown || Produces(table, req, Render(table, req, dlt, len))
  {
    match ItoP(table, dlt)
    case None =>
    case Some(d) =>
      RunFragmentsFromTable(table, d, 0, len, req);
  }

  /** An unknown link type, or an empty frame, renders as the placeholder. */
  lemma RenderPlaceholder(table: Table, req: Request, dlt: int, len: nat)
    requires WellFormed(table)
    requires ItoP(table, dlt).None? || len == 0
    ensures Render(table, req, dlt, len) == Unknown
  {
    if ItoP(table, dlt).Some? {
      var d := ItoP(table, dlt).value;
      RunUnfold(table, d, 0, 0, req);
    }
  }

  // ---------------------------------------------------------------------
  // The decode request and PAN_NEXT
  // ---------------------------------------------------------------------

  /**
   * A decode request (pbuf_t). `data` is the offset of the data pointer into
   * the frame `buf`; `obj` holds, in order, the values written to the output
   * object; `visits` records the decoders run on this request.
   */
  class Pbuf {
    var dlt: int
    var len: int
    var req: Request
    var obj: seq<string>
    var data: int
    const buf: seq<Byte>
    ghost var visits: seq<Visit>

    /** The window [data, data + len) lies inside the frame. */
    ghost predicate Valid()
      reads this
    {
      0 <= data && 0 <= len && data + len <= |buf|
    }

    constructor (req: Request, dlt: int, buf: seq<Byte>, len: nat)
      requires len <= |buf|
      ensures Valid()
      ensures this.req == req && this.dlt == dlt && this.buf == buf
      ensures this.data == 0 && this.len == len && obj == [] && visits == []
    {
      this.req := req;
      this.dlt := dlt;
      this.buf := buf;
      this.data := 0;
      this.len := len;
      this.obj := [];
      this.visits := [];
    }
  }

  /**
   * PAN_NEXT(p, h, size): if the request, the header and its decoder are all
   * present and more than `size` bytes remain, narrow the window past `size`
   * bytes, run the decoder, and restore the window.
   */
  method PanNext(p: Pbuf?, h: Option<Header>, size: nat, table: Table)
    requires p != null ==> p.Valid()
    requires WellFormed(table) && HeaderOk(h) && size >= 1
    modifies p
    ensures p != null ==> p.Valid()
    ensures p != null ==> p.data == old(p.data) && p.len == old(p.len)
    ensures p != null ==> p.dlt == old(p.dlt) && p.req == old(p.req)
    ensures p != null ==> p.visits == old(p.visits) + Descent(table, h, size, old(p.data), old(p.len), old(p.req))
    ensures p != null ==> p.obj == old(p.obj) + Fragments(Descent(table, h, size, old(p.data), old(p.len), old(p.req)))
    decreases if p == null then 0 else p.len, 0
  {
    if p != null && h.Some? && h.value.pan.Some? {
      if p.len > size {
        var n := size;
        p.len := p.len - n;
        p.data := p.data + n;
        Decode(p, h.value.pan.value, table);
        p.data := p.data - n;
        p.len := p.len + n;
      }
    }
  }

  /**
   * A table decoder run on request `p`: it records the invocation, writes its
   * fragment for the request kind, and descends with PAN_NEXT to the header of
   * its next-layer type, passing its own header size.
   */
  method Decode(p: Pbuf, d: Decoder, table: Table)
    requires p.Valid() && WellFormed(table) && d.size >= 1
    modifies p
    ensures p.Valid()
    ensures p.data == old(p.data) && p.len == old(p.len)
    ensures p.dlt == old(p.dlt) && p.req == old(p.req)
    ensures p.visits == old(p.visits) + Run(table, d, old(p.data), old(p.len), old(p.req))
    ensures p.obj == old(p.obj) + Fragments(Run(table, d, old(p.data), old(p.len), old(p.req)))
    decreases p.len, 1
  {
    ghost var off, len, req, visits, obj := p.data, p.len, p.req, p.visits, p.obj;
    ghost var rest := Descent(table, NextHeader(table, d), d.size, off, len, req);
    RunUnfold(table, d, off, len, req);
    p.visits := p.visits + [Visit(d, p.data, p.len, p.req)];
    p.obj := p.obj + Contribution(d, p.req, p.len);
    PanNext(p, NextHeader(table, d), d.size, table);
    assert p.visits == visits + ([Visit(d, off, len, req)] + rest);
    assert p.obj == obj + (Contribution(d, req, len) + Fragments(rest));
  }

  /**
   * pan_input: build a request over the first `len` bytes of `buf`, run the
   * decoder registered for the link type, and answer with what it wrote.
   */
  method PanInput(table: Table, req: Request, dlt: int, buf: seq<Byte>, len: nat) returns (r: string)
    requires WellFormed(table) && len <= |buf|
    ensures r == Render(table, req, dlt, len)
  {
    var p := new Pbuf(req, dlt, buf, len);
    match ItoP(table, dlt)
    case None =>
      r := Unknown;
    case Some(d) =>
      Decode(p, d, table);
      r := if p.obj == [] then Unknown else p.obj[|p.obj| - 1];
  }
}

/** dbus/manager/daemon.c: the tables of chips, lines and requests behind the D-Bus objects.
    Handlers run one at a time in the main loop; each is one method here. */
module Daemon {
  import opened Wrappers
  import Decimal
  import opened IdTree

  /** The two properties of a line object that the daemon itself decides. */
  datatype LineProps = LineProps(managed: bool, requestPath: Option<string>)

  const UNMANAGED := LineProps(false, None)
  const REQUEST_PREFIX := "/io/gpiod1/requests/request"

  function RequestPath(id: nat): string {
    REQUEST_PREFIX + Decimal.Print(id)
  }

  lemma PathsAreDistinct(a: nat, b: nat)
    requires RequestPath(a) == RequestPath(b)
    ensures a == b
  {
    assert Decimal.Print(a) == RequestPath(a)[|REQUEST_PREFIX|..];
    assert Decimal.Print(b) == RequestPath(b)[|REQUEST_PREFIX|..];
    Decimal.PrintIsInjective(a, b);
  }

  ghost predicate AllUnmanaged(lines: map<nat, LineProps>, numLines: nat) {
    (forall o: nat :: o in lines <==> o < numLines) &&
    (forall o :: o in lines ==> !lines[o].managed && lines[o].requestPath == None)
  }

  /** GpiodbusDaemonChipData */
  class ChipData {
    const name: string
    var lines: map<nat, LineProps>

    constructor (name: string, numLines: nat)
      ensures this.name == name
      ensures AllUnmanaged(lines, numLines)
    {
      this.name := name;
      lines := map[];
      new;
      for o := 0 to numLines
        invariant AllUnmanaged(lines, o)
      {
        lines := lines[o := UNMANAGED];
      }
    }
  }

  /** GpiodbusDaemonRequestData, with the offsets that its line paths name. */
  datatype RequestData = RequestData(id: nat, chip: ChipData, offsets: seq<nat>)

  /** A request lists a line exactly when the line is managed with that request's path. */
  ghost predicate LinesMatch(chip: ChipData, lines: map<nat, LineProps>, requests: map<string, RequestData>) {
    && (forall p, o :: p in requests && requests[p].chip == chip && o in requests[p].offsets ==>
      o in lines && lines[o] == LineProps(true, Some(p)))
    && (forall o :: o in lines && lines[o] != UNMANAGED ==>
      lines[o].managed && lines[o].requestPath.Some? &&
      lines[o].requestPath.value in requests && requests[lines[o].requestPath.value].chip == chip &&
      o in requests[lines[o].requestPath.value].offsets)
  }

  /** What the invariant says about one line. */
  lemma ManagedExactlyByRequest(chip: ChipData, lines: map<nat, LineProps>, requests: map<string, RequestData>, o: nat)
    requires LinesMatch(chip, lines, requests) && o in lines
    ensures forall p :: lines[o] == LineProps(true, Some(p)) <==>
      p in requests && requests[p].chip == chip && o in requests[p].offsets
    ensures !lines[o].managed <==>
      forall p :: p in requests && requests[p].chip == chip ==> o !in requests[p].offsets
  {
  }

  function Marked(lines: map<nat, LineProps>, offsets: seq<nat>, props: LineProps): map<nat, LineProps> {
    map o | o in lines :: if o in offsets then props else lines[o]
  }

  ghost function IdsOf(requests: map<string, RequestData>): set<int> {
    set p | p in requests :: requests[p].id as int
  }

  /** Every request is filed under its own path and belongs to one of the given chips. */
  ghost predicate Registered(known: set<ChipData>, requests: map<string, RequestData>) {
    forall p :: p in requests ==> p == RequestPath(requests[p].id) && requests[p].chip in known
  }

  function WithoutChip(requests: map<string, RequestData>, chip: ChipData): map<string, RequestData> {
    map p | p in requests && requests[p].chip != chip :: requests[p]
  }

  // How the tables change, as values

  lemma RemovedAnyway(requests: map<string, RequestData>, path: string, chip: ChipData)
    requires path in requests && requests[path].chip == chip
    ensures WithoutChip(requests - {path}, chip) == WithoutChip(requests, chip)
  {
  }

  lemma FreshPath(id: nat, requests: map<string, RequestData>)
    requires forall p :: p in requests ==> p == RequestPath(requests[p].id)
    requires id !in IdsOf(requests)
    ensures RequestPath(id) !in requests
  {
    if RequestPath(id) in requests {
      PathsAreDistinct(id, requests[RequestPath(id)].id);
    }
  }

  lemma IdsAfterInsert(requests: map<string, RequestData>, path: string, request: RequestData)
    requires path !in requests
    ensures IdsOf(requests[path := request]) == IdsOf(requests) + {request.id}
  {
    var after := requests[path := request];
    forall x | x in IdsOf(requests) ensures x in IdsOf(after) {
      var p :| p in requests && requests[p].id == x;
      assert p in after && after[p].id == x;
    }
    assert after[path].id in IdsOf(after);
  }

  lemma IdsAfterRemove(requests: map<string, RequestData>, path: string)
    requires path in requests && forall p :: p in requests ==> p == RequestPath(requests[p].id)
    ensures requests[path].id in IdsOf(requests)
    ensures IdsOf(requests - {path}) == IdsOf(requests) - {requests[path].id}
  {
    var after := requests - {path};
    forall x | x in IdsOf(requests) && x != requests[path].id ensures x in IdsOf(after) {
      var p :| p in requests && requests[p].id == x;
      assert p in after && after[p].id == x;
    }
  }

  lemma ValuesAfterInsert(chips: map<string, ChipData>, name: string, chip: ChipData)
    requires name !in chips
    ensures chips[name := chip].Values == chips.Values + {chip}
  {
    var after := chips[name := chip];
    forall c | c in chips.Values ensures c in after.Values {
      var n :| n in chips && chips[n] == c;
      assert after[n] == c;
    }
    assert after[name] == chip;
  }

  lemma ValuesAfterRemove(chips: map<string, ChipData>, name: string)
    requires name in chips && forall n :: n in chips ==> chips[n].name == n
    ensures (chips - {name}).Values == chips.Values - {chips[name]}
  {
    var after := chips - {name};
    forall c | c in chips.Values && c != chips[name] ensures c in after.Values {
      var n :| n in chips && chips[n] == c;
      assert after[n] == c;
    }
    forall c | c in after.Values ensures c in chips.Values && c != chips[name] {
      var n :| n in after && after[n] == c;
      assert chips[n] == c && chips[n].name == n;
    }
  }

  lemma MatchAfterInsert(chip: ChipData, lines: map<nat, LineProps>, requests: map<string, RequestData>,
                         path: string, request: RequestData)
    requires LinesMatch(chip, lines, requests) && path !in requests
    ensures chip != request.chip ==> LinesMatch(chip, lines, requests[path := request])
    ensures chip == request.chip && (forall o :: o in request.offsets ==> o in lines && !lines[o].managed) ==>
      LinesMatch(chip, Marked(lines, request.offsets, LineProps(true, Some(path))), requests[path := request])
  {
  }

  lemma MatchAfterRemove(chip: ChipData, lines: map<nat, LineProps>, requests: map<string, RequestData>, path: string)
    requires LinesMatch(chip, lines, requests) && path in requests
    ensures chip != requests[path].chip ==> LinesMatch(chip, lines, requests - {path})
    ensures chip == requests[path].chip ==>
      LinesMatch(chip, Marked(lines, requests[path].offsets, UNMANAGED), requests - {path})
  {
  }

  /** gpiodbus_lines_set_managed */
  method SetManaged(chip: ChipData, offsets: seq<nat>, props: LineProps)
    requires forall o :: o in offsets ==> o in chip.lines
    modifies chip
    ensures chip.lines == Marked(old(chip.lines), offsets, props)
  {
    for i := 0 to |offsets|
      invariant chip.lines == Marked(old(chip.lines), offsets[..i], props)
    {
      assert offsets[..i + 1] == offsets[..i] + [offsets[i]];
      chip.lines := chip.lines[offsets[i] := props];
    }
    assert offsets[..|offsets|] == offsets;
  }

  class Daemon {
    var chips: map<string, ChipData>
    var requests: map<string, RequestData>

    const ids: IdTree

    /** The tables agree with each other about the given chips. */
    ghost predicate Agree(known: set<ChipData>)
      reads this`requests, ids, known
    {
      && ids.Valid() && Members(ids.keys) == IdsOf(requests)
      && Registered(known, requests)
      && (forall c :: c in known ==> LinesMatch(c, c.lines, requests))
    }

    ghost predicate Valid()
      reads this, ids, chips.Values
    {
      Agree(chips.Values) && forall n :: n in chips ==> chips[n].name == n
    }

    constructor ()
      ensures Valid() && chips == map[] && requests == map[]
    {
      chips, requests := map[], map[];
      ids := new IdTree();
    }

    /** gpiodbus_daemon_export_chip, for a device that opens; the name is not in the table yet. */
    method ExportChip(name: string, numLines: nat)
      requires Valid() && name !in chips
      modifies this`chips
      ensures Valid() && requests == old(requests)
      ensures name in chips && fresh(chips[name]) && chips == old(chips)[name := chips[name]]
      ensures AllUnmanaged(chips[name].lines, numLines)
    {
      var chip := new ChipData(name, numLines);
      ValuesAfterInsert(chips, name, chip);
      assert Registered(chips.Values + {chip}, requests);
      chips := chips[name := chip];
    }

    /** gpiodbus_daemon_handle_request_lines, once the kernel has granted the lines: they exist,
        each is listed once, and no request holds them. The new request takes the least free id. */
    method RequestLines(chip: ChipData, offsets: seq<nat>) returns (id: nat)
      requires Valid() && chip in chips.Values
      requires forall o :: o in offsets ==> o in chip.lines && !chip.lines[o].managed
      modifies this`requests, ids, chip
      ensures Valid() && IsLeastFree(id, IdsOf(old(requests))) && RequestPath(id) !in old(requests)
      ensures RequestPath(id) == "/io/gpiod1/requests/request" + Decimal.Print(id)
      ensures requests == old(requests)[RequestPath(id) := RequestData(id, chip, offsets)]
      ensures chip.lines == Marked(old(chip.lines), offsets, LineProps(true, Some(RequestPath(id))))
    {
      var newId := ids.Alloc();
      id := newId;
      var path := RequestPath(id);
      var request := RequestData(id, chip, offsets);
      FreshPath(id, requests);
      IdsAfterInsert(requests, path, request);
      forall c | c in chips.Values
        ensures LinesMatch(c, if c == chip then Marked(chip.lines, offsets, LineProps(true, Some(path))) else c.lines,
                           requests[path := request])
      {
        MatchAfterInsert(c, c.lines, requests, path, request);
      }
      SetManaged(chip, offsets, LineProps(true, Some(path)));
      requests := requests[path := request];
    }

    /** Taking a request out of the table frees it: gpiodbus_daemon_request_data_free. */
    method RemoveRequest(path: string, ghost known: set<ChipData>)
      requires Agree(known) && path in requests
      modifies this`requests, ids, requests[path].chip
      ensures Agree(known) && requests == old(requests) - {path}
      ensures old(requests)[path].chip.lines ==
        Marked(old(requests[path].chip.lines), old(requests)[path].offsets, UNMANAGED)
    {
      var request := requests[path];
      IdsAfterRemove(requests, path);
      forall c | c in known
        ensures LinesMatch(c, if c == request.chip then Marked(c.lines, request.offsets, UNMANAGED) else c.lines,
                           requests - {path})
      {
        MatchAfterRemove(c, c.lines, requests, path);
      }
      requests := requests - {path};
      SetManaged(request.chip, request.offsets, UNMANAGED);
      ids.Free(request.id);
    }

    /** gpiodbus_daemon_handle_release_lines: a path that is not in the table is only warned about. */
    method ReleaseLines(path: string)
      requires Valid()
      modifies this`requests, ids, chips.Values
      ensures Valid() && requests == old(requests) - {path}
      ensures forall c :: c in chips.Values ==> (c.lines ==
        if path in old(requests) && c == old(requests)[path].chip
        then Marked(old(c.lines), old(requests)[path].offsets, UNMANAGED) else old(c.lines))
    {
      if path in requests {
        RemoveRequest(path, chips.Values);
      }
    }

    /** gpiodbus_daemon_chip_data_free: requests whose chip matches are removed, in any order. */
    method FreeChip(chip: ChipData, ghost known: set<ChipData>)
      requires Agree(known) && chip in known
      modifies this`requests, ids, chip
      ensures Agree(known - {chip})
      ensures requests == WithoutChip(old(requests), chip)
    {
      var todo := set p | p in requests && requests[p].chip == chip;
      while todo != {}
        invariant Agree(known) && WithoutChip(requests, chip) == WithoutChip(old(requests), chip)
        invariant forall p :: p in todo <==> p in requests && requests[p].chip == chip
        decreases todo
      {
        var path :| path in todo;
        RemovedAnyway(requests, path, chip);
        RemoveRequest(path, known);
        todo := todo - {path};
      }
      assert requests == WithoutChip(requests, chip);
    }

    /** gpiodbus_daemon_unexport_chip: the chip leaves the table, then every request on it is
        removed and its id returned; nothing else changes. */
    method UnexportChip(name: string)
      requires Valid()
      modifies this`chips, this`requests, ids, chips.Values
      ensures Valid() && chips == old(chips) - {name}
      ensures requests == if name in old(chips) then WithoutChip(old(requests), old(chips)[name]) else old(requests)
      ensures forall c :: c in chips.Values ==> c.lines == old(c.lines)
    {
      if name in chips {
        var chip := chips[name];
        ghost var known := chips.Values;
        ValuesAfterRemove(chips, name);
        chips := chips - {name};
        FreeChip(chip, known);
      }
    }
  }
}

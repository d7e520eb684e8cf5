/** The table of actions and the calls that go through it to the run queue. */
module ActionTable {
  import opened Wrappers
  import opened EinaList
  import R = RunQueue
  import opened Server

  const SYSMAN_MAXARG := 16

  /** `callers` are the pids an access check lets through, None without a check. */
  datatype ActionEntry = ActionEntry(name: string, action: int, callers: Option<set<int>>)

  function Find(table: seq<ActionEntry>, name: string): Option<ActionEntry>
  {
    if table == [] then None
    else if table[0].name == name then Some(table[0])
    else Find(table[1..], name)
  }

  /** One registration; `action` is None for a null function. */
  datatype Registration = Registration(name: string, action: Option<int>, callers: Option<set<int>>, mallocOk: bool)

  function Register(table: seq<ActionEntry>, r: Registration): seq<ActionEntry>
  {
    if r.mallocOk && Find(table, r.name).None? && r.action.Some?
    then [ActionEntry(r.name, r.action.value, r.callers)] + table
    else table
  }

  function Table(history: seq<Registration>): seq<ActionEntry>
  {
    if history == [] then []
    else Register(Table(history[..|history| - 1]), history[|history| - 1])
  }

  /** The earliest registration of `name` that was not refused for lack of memory or
      of a function. */
  function First(history: seq<Registration>, name: string): Option<ActionEntry>
  {
    if history == [] then None
    else if history[0].name == name && history[0].mallocOk && history[0].action.Some?
    then Some(ActionEntry(name, history[0].action.value, history[0].callers))
    else First(history[1..], name)
  }

  lemma {:induction false} FirstAppend(history: seq<Registration>, r: Registration, name: string)
    ensures First(history + [r], name) ==
            if First(history, name).Some? then First(history, name) else First([r], name)
  {
    if history == [] {
      assert [] + [r] == [r];
    } else {
      FirstAppend(history[1..], r, name);
      assert (history + [r])[1..] == history[1..] + [r];
    }
  }

  /** A call of `name` always reaches its first registration: later ones under the
      same name are refused, although the table is searched newest first. */
  lemma {:induction false} FirstRegistrationWins(history: seq<Registration>, name: string)
    ensures Find(Table(history), name) == First(history, name)
  {
    if history != [] {
      var before, r := history[..|history| - 1], history[|history| - 1];
      FirstRegistrationWins(before, name);
      FirstRegistrationWins(before, r.name);
      FirstAppend(before, r, name);
      assert history == before + [r];
      assert First([r][1..], name) == None;
      assert ([ActionEntry(r.name, if r.action.Some? then r.action.value else 0, r.callers)] + Table(before))[1..]
             == Table(before);
    }
  }

  class Actions {
    const list: List<ActionEntry>

    constructor ()
      ensures list.Valid() && list.Contents() == [] && fresh(list)
    {
      list := new List();
    }

    method EntryFind(name: string) returns (found: Option<ActionEntry>)
      requires list.Valid()
      ensures found == Find(list.Contents(), name)
    {
      var tmp := list.head;
      ghost var i := 0;
      while tmp != null
        invariant i <= |list.nodes| && tmp == list.At(i)
        invariant Find(list.Contents(), name) == Find(list.Contents()[i..], name)
        decreases |list.nodes| - i
      {
        assert list.Contents()[i..][1..] == list.Contents()[i + 1..];
        if tmp.data.name == name {
          return Some(tmp.data);
        }
        tmp := tmp.next;
        i := i + 1;
      }
      found := None;
    }

    method EntryAddInternal(r: Registration) returns (ret: int)
      requires list.Valid()
      modifies list
      ensures list.Valid() && list.Contents() == Register(old(list.Contents()), r)
      ensures ret == if list.Contents() == old(list.Contents()) then -1 else 0
    {
      if !r.mallocOk {
        return -1;
      }
      var found := EntryFind(r.name);
      if found.Some? || r.action.None? {
        return -1;
      }
      list.Prepend(ActionEntry(r.name, r.action.value, r.callers));
      ret := 0;
    }

    /** A client's call: refused without an entry or without access. */
    method EntryCall(server: ActionServer, name: string, caller: int, argv: seq<Option<int>>, mallocOk: bool)
      returns (ret: int)
      requires list.Valid() && server.Valid()
      modifies server, server.runQueue
      ensures server.Valid()
      ensures var e := Find(old(list.Contents()), name);
              var admitted := e.Some? && (e.value.callers.Some? ==> caller in e.value.callers.value);
              && ret == (if admitted then 0 else -1)
              && server.Abs() == if admitted then R.EnvStep(old(server.Abs()), server.foreign, R.Call(mallocOk, argv))
                                 else old(server.Abs())
    {
      var found := EntryFind(name);
      if found.None? {
        return -1;
      }
      if found.value.callers.Some? && caller !in found.value.callers.value {
        return -1;
      }
      server.EntryCall(argv, mallocOk);
      ret := 0;
    }

    /** The server's own call: no access check, and an unknown name is no error. */
    method EntryCallInternal(server: ActionServer, name: Option<string>, argv: seq<Option<int>>, mallocOk: bool)
      returns (ret: int)
      requires list.Valid() && server.Valid()
      modifies server, server.runQueue
      ensures server.Valid()
      ensures ret == if |argv| > 16 || name.None? then -1 else 0
      ensures server.Abs() == if ret == 0 && Find(old(list.Contents()), name.value).Some?
                              then R.EnvStep(old(server.Abs()), server.foreign, R.Call(mallocOk, argv))
                              else old(server.Abs())
    {
      if |argv| > SYSMAN_MAXARG || name.None? {
        return -1;
      }
      var found := EntryFind(name.value);
      if found.Some? {
        server.EntryCall(argv, mallocOk);
      }
      ret := 0;
    }
  }
}

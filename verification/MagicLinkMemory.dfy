/** The in-memory link store, whose rows are edited and compacted in place, and the kit that serves from it. */
module MagicLinkMemory {
  import opened Wrappers
  import opened MagicLinks
  import opened MagicLinkLimits

  // A zero consumedAt is the zero time: not consumed.
  datatype Cell = Cell(link: Link, consumedAt: int)

  function RowOf(c: Cell): Row {
    Row(c.link, if c.consumedAt == 0 then None else Some(c.consumedAt))
  }

  function RowsOf(cells: seq<Cell>): seq<Row> {
    seq(|cells|, (i: nat) requires i < |cells| => RowOf(cells[i]))
  }

  lemma SpentAt(rows: seq<Row>, hash: Hash, now: int, k: nat)
    requires k <= |rows| && forall j :: 0 <= j < k ==> !Spendable(rows[j], hash, now)
    requires k < |rows| ==> Spendable(rows[k], hash, now)
    ensures Spent(rows, hash, now) == k
  {
  }

  // A row ended at the zero time is not ended.
  function EndedAt(row: Row, user: nat, at: int): Row {
    if at != 0 then Ended(row, user, at) else row
  }

  class Memory {
    var data: array<Cell>
    var size: nat

    ghost predicate Valid()
      reads this
    {
      size <= data.Length
    }

    ghost function Rows(): seq<Row>
      requires Valid()
      reads this, data
    {
      RowsOf(data[..size])
    }

    constructor ()
      ensures Valid() && Rows() == [] && fresh(data)
    {
      data, size := new Cell[0], 0;
    }

    /** Adds a link; the account's earlier live ones are superseded, unless it is created at the zero time. */
    method Create(link: Link)
      requires Valid()
      modifies this, data
      ensures Valid() && (data == old(data) || fresh(data))
      ensures Rows() == if link.created != 0 then Created(old(Rows()), link) else old(Rows()) + [Row(link, None)]
    {
      for i := 0 to size
        invariant Valid() && size == old(size) && data == old(data)
        invariant forall j :: 0 <= j < i ==> data[j].link == old(data[j].link)
        invariant forall j :: 0 <= j < i ==> RowOf(data[j]) == EndedAt(RowOf(old(data[j])), link.user, link.created)
        invariant forall j :: i <= j < data.Length ==> data[j] == old(data[j])
      {
        if data[i].link.user == link.user && data[i].consumedAt == 0 {
          data[i] := data[i].(consumedAt := link.created);
        }
      }
      assert RowsOf(data[..size]) == if link.created != 0
        then Superseded(old(Rows()), link.user, link.created) else old(Rows());
      Append(Cell(link, 0));
    }

    // Appends, moving to a larger array when the present one is full.
    method Append(c: Cell)
      requires Valid()
      modifies this, data
      ensures Valid() && (data == old(data) || fresh(data))
      ensures Rows() == old(Rows()) + [RowOf(c)]
    {
      ghost var before := data[..size];
      if size == data.Length {
        var grown := new Cell[2 * size + 1];
        for i := 0 to size
          invariant size == old(size) && data == old(data) && data[..size] == before
          invariant grown[..i] == before[..i]
        {
          grown[i] := data[i];
        }
        data := grown;
      }
      assert data[..size] == before;
      data[size] := c;
      size := size + 1;
      assert data[..size] == before + [c];
    }

    /** Answers the account of a live link and marks it used, except that a use at the zero time leaves no mark. */
    method Consume(hash: Hash, now: int) returns (user: Option<nat>)
      requires Valid()
      modifies data
      ensures Valid() && Rows() == if now != 0 then Consumed(old(Rows()), hash, now) else old(Rows())
      ensures var i := Spent(old(Rows()), hash, now);
        user == if i < |old(Rows())| then Some(old(Rows())[i].link.user) else None
    {
      ghost var rows := Rows();
      for i := 0 to size
        invariant Valid() && Rows() == rows
        invariant forall j :: 0 <= j < i ==> !Spendable(rows[j], hash, now)
      {
        if data[i].link.hash == hash && data[i].consumedAt == 0 && data[i].link.expires > now {
          SpentAt(rows, hash, now, i);
          data[i] := data[i].(consumedAt := now);
          assert Rows() == if now != 0 then Consumed(rows, hash, now) else rows;
          return Some(data[i].link.user);
        }
      }
      SpentAt(rows, hash, now, size);
      user := None;
    }

    method CountSince(key: Key, since: int) returns (count: nat)
      requires Valid()
      ensures count == MagicLinks.CountSince(Rows(), key, since)
    {
      if key.user == 0 && key.ip == "" {
        return 0;
      }
      count := 0;
      ghost var links, sp := Links(Rows()), Span(key, since, None);
      for i := 0 to size
        invariant count == Tally(links[..i], sp)
      {
        assert links[..i + 1] == links[..i] + [data[i].link];
        TallyOneMore(links[..i], data[i].link, sp);
        if Matches(data[i].link, key) && data[i].link.created >= since {
          count := count + 1;
        }
      }
      assert links[..size] == links;
    }

    /** Compacts the array to the links whose time is not over by the cutoff, in their order. */
    method DeleteExpired(cutoff: int) returns (removed: nat)
      requires Valid()
      modifies this`size, data
      ensures Valid() && Rows() == Swept(old(Rows()), cutoff)
      ensures removed == |old(Rows())| - |Rows()|
    {
      ghost var cells := data[..size];
      ghost var rows := Rows();
      var kept := 0;
      removed := 0;
      for i := 0 to size
        invariant Valid() && size == old(size) && kept + removed == i
        invariant forall j :: i <= j < size ==> data[j] == cells[j]
        invariant RowsOf(data[..kept]) == Swept(rows[..i], cutoff)
      {
        assert rows[..i + 1] == rows[..i] + [rows[i]];
        SweptConcat(rows[..i], [rows[i]], cutoff);
        if data[i].link.expires < cutoff {
          removed := removed + 1;
        } else {
          ghost var front := data[..kept];
          data[kept] := data[i];
          kept := kept + 1;
          assert data[..kept] == front + [cells[i]];
        }
      }
      assert rows[..size] == rows;
      size := kept;
    }
  }

  lemma NextServes(cfg: Config, s: State, op: Op)
    ensures Next(cfg, s, op).rows == Serve(cfg, s.rows, op).0 && Next(cfg, s, op).now == op.at
  {
    hide Serve;
  }

  const DEFAULT_TTL := 15 * 60 * 1_000_000_000
  const DEFAULT_MAX_PER_EMAIL := 5
  const DEFAULT_MAX_PER_IP := 20

  /** Serialised requests against the in-memory store. */
  class Kit {
    const cfg: Config
    const links: Memory

    ghost predicate Valid()
      reads this, links
    {
      Sane(cfg) && links.Valid()
    }

    constructor (config: Config)
      ensures Valid() && fresh(links) && fresh(links.data) && links.Rows() == []
      ensures config.ttl > 0 ==> cfg.ttl == config.ttl
      ensures config.maxPerEmail > 0 ==> cfg.maxPerEmail == config.maxPerEmail
      ensures config.maxPerIP > 0 ==> cfg.maxPerIP == config.maxPerIP
    {
      cfg := Config(
        if config.ttl <= 0 then DEFAULT_TTL else config.ttl,
        if config.maxPerEmail <= 0 then DEFAULT_MAX_PER_EMAIL else config.maxPerEmail,
        if config.maxPerIP <= 0 then DEFAULT_MAX_PER_IP else config.maxPerIP);
      links := new Memory();
    }

    method Request(hash: Hash, user: nat, ip: string, now: int) returns (outcome: Outcome)
      requires Valid() && now != 0
      modifies links, links.data
      ensures Valid() && (links.data == old(links.data) || fresh(links.data))
      ensures (links.Rows(), outcome) == Serve(cfg, old(links.Rows()), Op.Request(hash, user, ip, now))
    {
      var byUser := links.CountSince(Key(user, ""), now - WINDOW);
      var byIP := links.CountSince(Key(0, ip), now - WINDOW);
      var allowed := byUser < cfg.maxPerEmail && byIP < cfg.maxPerIP;
      if user == 0 {
        return Quiet;
      }
      if !allowed {
        return Quiet;
      }
      var link := Link(hash, user, ip, now, now + cfg.ttl);
      links.Create(link);
      outcome := Issued(link);
    }

    method Consume(hash: Hash, allowed: bool, now: int) returns (outcome: Outcome)
      requires Valid() && now != 0
      modifies links.data
      ensures Valid()
      ensures (links.Rows(), outcome) == Serve(cfg, old(links.Rows()), Redeem(hash, allowed, now))
    {
      var user := links.Consume(hash, now);
      if user.None? {
        return Invalid;
      }
      if !allowed {
        return Invalid;
      }
      outcome := SignedIn(user.value);
    }

    method Answer(op: Op) returns (outcome: Outcome)
      requires Valid() && op.at != 0
      modifies links, links.data
      ensures Valid() && (links.data == old(links.data) || fresh(links.data))
      ensures (links.Rows(), outcome) == Serve(cfg, old(links.Rows()), op)
    {
      hide Serve;
      match op
      case Request(hash, user, ip, now) => outcome := Request(hash, user, ip, now);
      case Redeem(hash, allowed, now) => outcome := Consume(hash, allowed, now);
      case Clean(cutoff, now) => outcome := Clean(cutoff, now);
    }

    /** Serves a run of operations: its answers are the table's, and every hour it issued in is within limits. */
    method Run(ops: seq<Op>, start: int) returns (outcomes: seq<Outcome>, ghost end: State)
      requires Valid() && links.Rows() == [] && start > 0 && AllTimely(start, ops)
      modifies links, links.data
      ensures Valid() && outcomes == Outcomes(cfg, [], ops)
      ensures end == MagicLinkLimits.Run(cfg, State([], [], start), ops)
      ensures end.rows == links.Rows() && Limited(cfg, end.log)
    {
      hide Serve, Limited, Next;
      WindowsAreLimited(cfg, start, ops);
      outcomes := [];
      end := State([], [], start);
      assert ops[0..] == ops;
      for k := 0 to |ops|
        invariant Valid() && end.now > 0 && AllTimely(end.now, ops[k..])
        invariant links.data == old(links.data) || fresh(links.data)
        invariant outcomes + Outcomes(cfg, links.Rows(), ops[k..]) == Outcomes(cfg, [], ops)
        invariant end.rows == links.Rows()
        invariant MagicLinkLimits.Run(cfg, end, ops[k..]) == MagicLinkLimits.Run(cfg, State([], [], start), ops)
      {
        assert ops[k..][0] == ops[k] && ops[k..][1..] == ops[k + 1..];
        ghost var rows := links.Rows();
        var outcome := Answer(ops[k]);
        NextServes(cfg, end, ops[k]);
        end := Next(cfg, end, ops[k]);
        outcomes := outcomes + [outcome];
      }
    }

    method Clean(cutoff: int, now: int) returns (outcome: Outcome)
      requires Valid()
      modifies links`size, links.data
      ensures Valid() && (links.Rows(), outcome) == Serve(cfg, old(links.Rows()), Op.Clean(cutoff, now))
    {
      var _ := links.DeleteExpired(cutoff);
      outcome := Cleaned;
    }
  }
}

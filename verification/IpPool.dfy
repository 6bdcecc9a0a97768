/** The address pool: a bit vector whose slot k stands for the address with last octet k + 1. */
module IpPool {
  import opened Common
  import opened Text

  /** The pool on values: address prefix and one flag for each slot. */
  datatype Pool = Pool(base: string, usage: seq<bool>)

  datatype ReleaseOutcome =
    | Released
    | Refused      // returns 1 and changes nothing
    | Thrown       // std::stoi throws
    | PastTheEnd   // the guard lets the octet pass, but the slot index equals the vector size

  const MAX_SIZE := 253

  /** Everything up to and including the last dot of the network address. */
  function BaseOf(netIp: string): (base: string)
    ensures IsBase(base)
    ensures base == "" <==> '.' !in netIp
  {
    netIp[..RFind(netIp, '.') + 1]
  }

  /** The prefix of a network address is everything before its last part. */
  lemma BaseOfNetwork(prefix: string, last: string)
    requires '.' !in last
    ensures BaseOf(prefix + "." + last) == prefix + "."
  {
    var s := prefix + "." + last;
    var r := RFind(s, '.');
    assert s[|prefix|] == '.';
    assert forall i :: |prefix| < i < |s| ==> s[i] == last[i - |prefix| - 1];
    assert s[..|prefix| + 1] == prefix + ".";
  }

  predicate IsBase(base: string) { base == "" || base[|base| - 1] == '.' }

  predicate ValidPool(p: Pool) { IsBase(p.base) && 1 <= |p.usage| <= MAX_SIZE && !p.usage[0] }

  function Address(base: string, slot: nat): string { base + Natural(slot + 1) }

  /** The first free slot at or after a position; the size of the vector when there is none. */
  function LeastFree(usage: seq<bool>, from: nat): (k: nat)
    requires from <= |usage|
    ensures from <= k <= |usage|
    ensures forall i :: from <= i < k ==> usage[i]
    ensures k < |usage| ==> !usage[k]
    decreases |usage| - from
  {
    if from == |usage| || !usage[from] then from else LeastFree(usage, from + 1)
  }

  function Allocate(p: Pool): (Pool, string) {
    if p.usage == [] then (p, "")
    else
      var k := LeastFree(p.usage, 1);
      if k == |p.usage| then (p, "") else (p.(usage := p.usage[k := true]), Address(p.base, k))
  }

  /** What std::stoi makes of the text after the last dot; None without a dot. */
  function LastOctet(ip: string): Option<Stoi> {
    var dot := RFind(ip, '.');
    if dot == -1 then None else Some(StringToInt(ip[dot + 1..]))
  }

  function Release(p: Pool, ip: string): (Pool, ReleaseOutcome) {
    match LastOctet(ip)
    case None => (p, Refused)
    case Some(NotANumber) => (p, Thrown)
    case Some(OutOfRange) => (p, Thrown)
    case Some(Parsed(octet)) =>
      if octet < 2 || octet >= |p.usage| + 2 then (p, Refused)
      else if octet - 1 == |p.usage| then (p, PastTheEnd)
      else (p.(usage := p.usage[octet - 1 := false]), Released)
  }

  function CountUsed(usage: seq<bool>): nat {
    if usage == [] then 0 else CountUsed(usage[..|usage| - 1]) + if usage[|usage| - 1] then 1 else 0
  }

  // ---------- addresses ----------

  lemma AddressInjective(base: string, j: nat, k: nat)
    requires Address(base, j) == Address(base, k)
    ensures j == k
  {
    assert Address(base, j)[|base|..] == Natural(j + 1);
    assert Address(base, k)[|base|..] == Natural(k + 1);
  }

  /** A base followed by an octet splits again: the last dot is the one of the base. */
  lemma {:induction false} OctetParses(base: string, octet: nat)
    requires base != "" && IsBase(base) && octet <= INT_MAX
    ensures LastOctet(base + Natural(octet)) == Some(Parsed(octet))
  {
    var ip := base + Natural(octet);
    assert ip[|base|..] == Natural(octet);
    assert forall i :: |base| <= i < |ip| ==> ip[i] == Natural(octet)[i - |base|];
    assert ip[|base| - 1] == '.';
    assert RFind(ip, '.') == |base| - 1;
    StoiOfNatural(octet);
  }

  // ---------- the pool as a finite set of octets ----------

  /** The last octets a pool of this size can hand out. */
  ghost function Octets(size: int): (s: set<int>)
    ensures forall o :: o in s <==> 2 <= o <= size
    decreases size
  {
    if size < 2 then {} else Octets(size - 1) + {size}
  }

  ghost function Taken(p: Pool): set<int> { set k | 1 <= k < |p.usage| && p.usage[k] :: k + 1 }

  lemma TakenSlot(p: Pool, k: nat)
    requires 1 <= k < |p.usage|
    ensures p.usage[k] <==> k + 1 in Taken(p)
  {
  }

  /** Allocation takes the least free octet, and gives the empty string exactly when none is free. */
  lemma AllocateRefines(p: Pool)
    requires ValidPool(p)
    ensures var (p', ip) := Allocate(p);
            && ValidPool(p') && p'.base == p.base && |p'.usage| == |p.usage|
            && (ip == "" <==> Taken(p) == Octets(|p.usage|))
            && (ip == "" ==> p' == p)
            && (ip != "" ==>
                  var o := LeastFree(p.usage, 1) + 1;
                  && o in Octets(|p.usage|) - Taken(p)
                  && (forall o' | o' in Octets(|p.usage|) - Taken(p) :: o <= o')
                  && ip == p.base + Natural(o) && Taken(p') == Taken(p) + {o}
                  && o != 0 && o != 1 && o != 255)
  {
    var k := LeastFree(p.usage, 1);
    var (p', ip) := Allocate(p);
    if k == |p.usage| {
      forall o | o in Octets(|p.usage|) ensures o in Taken(p) { TakenSlot(p, o - 1); }
    } else {
      TakenSlot(p, k);
      assert k + 1 in Octets(|p.usage|);
      forall o | o in Octets(|p.usage|) - Taken(p) ensures k + 1 <= o { TakenSlot(p, o - 1); }
      forall o ensures o in Taken(p') <==> o in Taken(p) + {k + 1} {
        if 2 <= o <= |p.usage| { TakenSlot(p, o - 1); TakenSlot(p', o - 1); }
      }
    }
  }

  lemma ReleaseByOctet(p: Pool, ip: string, octet: int)
    requires LastOctet(ip) == Some(Parsed(octet)) && 2 <= octet <= |p.usage| + 1
    ensures Release(p, ip) == if octet == |p.usage| + 1 then (p, PastTheEnd)
                              else (p.(usage := p.usage[octet - 1 := false]), Released)
  {
  }

  /** What release_ip does with any address, told from the part after its last dot. */
  lemma ReleaseExactly(p: Pool, prefix: string, last: string)
    requires '.' !in last
    ensures Release(p, last) == (p, Refused)
    ensures Release(p, prefix + "." + last) ==
            match StringToInt(last)
            case NotANumber => (p, Thrown)
            case OutOfRange => (p, Thrown)
            case Parsed(octet) =>
              if octet <= 1 || octet > |p.usage| + 1 then (p, Refused)
              else if octet == |p.usage| + 1 then (p, PastTheEnd)
              else (p.(usage := p.usage[octet - 1 := false]), Released)
  {
    var ip := prefix + "." + last;
    var dot := RFind(ip, '.');
    assert ip[|prefix|] == '.';
    assert forall i :: |prefix| < i < |ip| ==> ip[i] == last[i - |prefix| - 1];
    assert ip[|prefix| + 1..] == last;
  }

  lemma ReleaseAddress(p: Pool, slot: nat)
    requires ValidPool(p) && p.base != "" && 1 <= slot < |p.usage|
    ensures Release(p, Address(p.base, slot)) == (p.(usage := p.usage[slot := false]), Released)
  {
    OctetParses(p.base, slot + 1);
    ReleaseByOctet(p, Address(p.base, slot), slot + 1);
  }

  /** Releasing an address of the pool frees its octet, provided the base has a dot. */
  lemma ReleaseRefines(p: Pool, slot: nat)
    requires ValidPool(p) && p.base != "" && 1 <= slot < |p.usage|
    ensures var (p', outcome) := Release(p, Address(p.base, slot));
            && outcome == Released && p' == p.(usage := p.usage[slot := false])
            && ValidPool(p') && Taken(p') == Taken(p) - {slot + 1}
  {
    ReleaseAddress(p, slot);
    TakenWithout(p, slot);
  }

  lemma TakenWithout(p: Pool, slot: nat)
    requires 1 <= slot < |p.usage|
    ensures Taken(p.(usage := p.usage[slot := false])) == Taken(p) - {slot + 1}
  {
    var p' := p.(usage := p.usage[slot := false]);
    forall o ensures o in Taken(p') <==> o in Taken(p) - {slot + 1} {
      if 2 <= o <= |p.usage| { TakenSlot(p, o - 1); TakenSlot(p', o - 1); }
    }
  }

  /** Releasing what was just allocated undoes the allocation exactly when the network address has a dot. */
  lemma ReleaseUndoesAllocate(p: Pool)
    requires ValidPool(p) && Allocate(p).1 != ""
    ensures var (p', ip) := Allocate(p);
            Release(p', ip) == if p.base != "" then (p, Released) else (p', Refused)
    ensures Allocate(p).0 != p
  {
    var k := LeastFree(p.usage, 1);
    var (p', ip) := Allocate(p);
    assert p'.usage[k];
    if p.base != "" {
      ReleaseRefines(p', k);
      assert p'.usage[k := false] == p.usage;
    } else {
      assert ip == Natural(k + 1);
      assert RFind(ip, '.') == -1;
    }
  }

  /** The guard of release_ip admits one octet too many; the slot it names lies just past the vector. */
  lemma ReleasePastTheEnd(p: Pool)
    requires ValidPool(p) && p.base != ""
    ensures Release(p, p.base + Natural(|p.usage| + 1)).1 == PastTheEnd
  {
    var octet := |p.usage| + 1;
    var ip := p.base + Natural(octet);
    OctetParses(p.base, octet);
    ReleaseByOctet(p, ip, octet);
  }

  lemma {:induction false} CountTaken(p: Pool)
    requires |p.usage| >= 1 && !p.usage[0]
    ensures |Taken(p)| == CountUsed(p.usage)
    decreases |p.usage|
  {
    var last := |p.usage| - 1;
    if last == 0 {
      assert CountUsed(p.usage) == CountUsed(p.usage[..0]);
      assert Taken(p) == {};
    } else {
      CountTaken(p.(usage := p.usage[..last]));
      TakenPrefix(p);
    }
  }

  lemma TakenPrefix(p: Pool)
    requires |p.usage| >= 2
    ensures var last := |p.usage| - 1;
            var before := Taken(p.(usage := p.usage[..last]));
            last + 1 !in before && Taken(p) == before + if p.usage[last] then {last + 1} else {}
  {
    var last := |p.usage| - 1;
    var q := p.(usage := p.usage[..last]);
    forall o ensures o in Taken(p) <==> o in Taken(q) + if p.usage[last] then {last + 1} else {} {
      if 2 <= o <= last { TakenSlot(p, o - 1); TakenSlot(q, o - 1); }
      if o == last + 1 { TakenSlot(p, last); }
    }
  }

  // ---------- whole histories ----------

  /** A call on the pool; a release names an address of the pool by its octet. */
  datatype Call = Take | Give(octet: int)

  predicate InPool(size: int, calls: seq<Call>) {
    forall i :: 0 <= i < |calls| && calls[i].Give? ==> 2 <= calls[i].octet <= size
  }

  /** What a history of calls answers: the address or "" for each allocation. */
  function Answers(p: Pool, calls: seq<Call>): seq<string>
    decreases |calls|
  {
    if calls == [] then []
    else
      match calls[0]
      case Take => [Allocate(p).1] + Answers(Allocate(p).0, calls[1..])
      case Give(o) => Answers(Release(p, p.base + Decimal(o)).0, calls[1..])
  }

  /** The same history on a finite set of octets. */
  ghost function SetAnswers(base: string, size: int, taken: set<int>, calls: seq<Call>): seq<string>
    requires size >= 1
    decreases |calls|
  {
    if calls == [] then []
    else
      match calls[0]
      case Take =>
        var free := Octets(size) - taken;
        if free == {} then [""] + SetAnswers(base, size, taken, calls[1..])
        else
          var o := Least(free, 2, size + 1);
          [base + Decimal(o)] + SetAnswers(base, size, taken + {o}, calls[1..])
      case Give(o) => SetAnswers(base, size, taken - {o}, calls[1..])
  }

  /** The least member of a set between two bounds, or the upper bound. */
  ghost function Least(s: set<int>, from: int, bound: int): (o: int)
    requires from <= bound
    ensures from <= o <= bound && (o < bound ==> o in s)
    ensures forall o' | o' in s && from <= o' < bound :: o <= o'
    decreases bound - from
  {
    if from == bound || from in s then from else Least(s, from + 1, bound)
  }

  /** Over any history the bit vector with its printed octets answers like the set. */
  lemma {:induction false} PoolRefinesSet(p: Pool, calls: seq<Call>)
    requires ValidPool(p) && p.base != "" && InPool(|p.usage|, calls)
    ensures Answers(p, calls) == SetAnswers(p.base, |p.usage|, Taken(p), calls)
    decreases |calls|
  {
    if calls != [] {
      var rest := calls[1..];
      assert InPool(|p.usage|, rest);
      if calls[0].Take? {
        AllocateAnswers(p);
        PoolRefinesSet(Allocate(p).0, rest);
      } else {
        GiveAnswers(p, calls[0].octet);
        PoolRefinesSet(Release(p, p.base + Decimal(calls[0].octet)).0, rest);
      }
    }
  }

  lemma GiveAnswers(p: Pool, octet: int)
    requires ValidPool(p) && p.base != "" && 2 <= octet <= |p.usage|
    ensures var p' := Release(p, p.base + Decimal(octet)).0;
            ValidPool(p') && p'.base == p.base && |p'.usage| == |p.usage| && Taken(p') == Taken(p) - {octet}
  {
    ReleaseRefines(p, octet - 1);
  }

  lemma AllocateAnswers(p: Pool)
    requires ValidPool(p)
    ensures var (p', ip) := Allocate(p);
            var free := Octets(|p.usage|) - Taken(p);
            && ValidPool(p') && p'.base == p.base && |p'.usage| == |p.usage|
            && if free == {} then ip == "" && Taken(p') == Taken(p)
               else ip == p.base + Decimal(Least(free, 2, |p.usage| + 1))
                    && Taken(p') == Taken(p) + {Least(free, 2, |p.usage| + 1)}
  {
    AllocateRefines(p);
    assert Taken(p) <= Octets(|p.usage|);
    if Octets(|p.usage|) - Taken(p) == {} {
      assert Taken(p) == Octets(|p.usage|);
    } else {
      var o :| o in Octets(|p.usage|) - Taken(p);
    }
  }

  // ---------- the class ----------

  class IPPool {
    const baseIp: string
    const ipUsage: array<bool>

    ghost predicate Valid()
      reads ipUsage
    {
      ValidPool(View())
    }

    ghost function View(): Pool
      reads ipUsage
    {
      Pool(baseIp, ipUsage[..])
    }

    constructor (netIp: string, poolSize: int)
      requires netIp != "" && 0 < poolSize <= MAX_SIZE
      ensures Valid() && fresh(ipUsage)
      ensures View() == Pool(BaseOf(netIp), seq(poolSize, i => false))
    {
      baseIp := netIp[..RFind(netIp, '.') + 1];
      ipUsage := new bool[poolSize](_ => false);
    }

    /** The constructor with its exceptions. */
    static method Create(netIp: string, poolSize: int) returns (pool: Option<IPPool>)
      ensures pool.Some? <==> netIp != "" && 0 < poolSize <= 253 && netIp[|netIp| - 1] == '0'
      ensures pool.Some? ==>
                && pool.value.Valid() && fresh(pool.value) && fresh(pool.value.ipUsage)
                && pool.value.View() == Pool(BaseOf(netIp), seq(poolSize, i => false))
    {
      if netIp == "" || poolSize <= 0 || poolSize > MAX_SIZE {
        return None;
      }
      if netIp[|netIp| - 1] != '0' {
        return None;
      }
      var p := new IPPool(netIp, poolSize);
      pool := Some(p);
    }

    method AllocateIp() returns (ip: string)
      requires Valid()
      modifies ipUsage
      ensures Valid() && (View(), ip) == Allocate(old(View()))
    {
      var i := 1;
      while i < ipUsage.Length
        invariant 1 <= i <= ipUsage.Length
        invariant ipUsage[..] == old(ipUsage[..])
        invariant LeastFree(ipUsage[..], 1) == LeastFree(ipUsage[..], i)
      {
        if !ipUsage[i] {
          ipUsage[i] := true;
          return baseIp + Decimal(i + 1);
        }
        i := i + 1;
      }
      ip := "";
    }

    method ReleaseIp(ip: string) returns (outcome: ReleaseOutcome)
      requires Valid()
      modifies ipUsage
      ensures Valid() && (View(), outcome) == Release(old(View()), ip)
    {
      var dot := RFind(ip, '.');
      if dot == -1 {
        return Refused;
      }
      var parsed := StringToInt(ip[dot + 1..]);
      assert LastOctet(ip) == Some(parsed);
      if !parsed.Parsed? {
        return Thrown;
      }
      var octet := parsed.number;
      if octet < 2 || octet >= ipUsage.Length + 2 {
        return Refused;
      }
      if octet - 1 == ipUsage.Length {
        return PastTheEnd;
      }
      ipUsage[octet - 1] := false;
      outcome := Released;
    }

    method CountAllocated() returns (count: nat)
      requires Valid()
      ensures count == CountUsed(ipUsage[..]) == |Taken(View())|
    {
      count := 0;
      for i := 0 to ipUsage.Length
        invariant count == CountUsed(ipUsage[..i])
      {
        assert ipUsage[..i + 1][..i] == ipUsage[..i];
        if ipUsage[i] {
          count := count + 1;
        }
      }
      assert ipUsage[..ipUsage.Length] == ipUsage[..];
      CountTaken(View());
    }
  }
}

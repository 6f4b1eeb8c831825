/** The provisioned robots file: fresh ids and the upsert keyed by MAC address. */
module RobotEntries {
  import opened Common

  datatype Entry = Entry(
    robotId: Option<string>, mac: Option<string>, ip: Option<string>, role: Option<string>,
    sdkPath: Option<string>, enabled: Option<bool>, displayName: Option<string>)

  datatype Request = Request(
    success: bool, robotId: Option<string>, mac: string, ip: string, role: string, sdkPath: string,
    displayName: Option<string>)

  datatype Error = NotSuccessful | UnknownRole | BlankField | DuplicateId

  function LowerChar(c: char): char {
    if 'A' <= c <= 'Z' then (c as int + 32) as char else c
  }

  /** str.lower() over ASCII. */
  function Lower(s: string): (r: string)
    ensures |r| == |s| && forall i :: 0 <= i < |s| ==> r[i] == LowerChar(s[i])
  {
    seq(|s|, i requires 0 <= i < |s| => LowerChar(s[i]))
  }

  function NormalMac(mac: string): string {
    Lower(Strip(mac))
  }

  function Digits(n: nat): string {
    if n < 10 then [('0' as int + n) as char] else Digits(n / 10) + [('0' as int + n % 10) as char]
  }

  /** The suffix with at least two digits. */
  function Suffix(n: nat): string {
    if n < 10 then "0" + Digits(n) else Digits(n)
  }

  function Candidate(role: string, n: nat): string {
    role + "_" + Suffix(n)
  }

  /** The number a string of digits stands for. */
  function Number(s: string): int {
    if s == "" then 0 else Number(s[..|s| - 1]) * 10 + (s[|s| - 1] as int - '0' as int)
  }

  lemma {:induction false} DigitsRoundTrip(n: nat)
    ensures Number(Digits(n)) == n && Number(Suffix(n)) == n
    ensures Digits(n) != "" && !IsSpace(Digits(n)[|Digits(n)| - 1])
  {
    if n < 10 {
      OneDigit(n);
    } else {
      DigitsRoundTrip(n / 10);
      NumberAppends(Digits(n / 10), n % 10);
    }
  }

  lemma NumberAppends(s: string, d: nat)
    requires d < 10
    ensures Number(s + [('0' as int + d) as char]) == Number(s) * 10 + d
  {
    assert (s + [('0' as int + d) as char])[..|s|] == s;
  }

  lemma OneDigit(n: nat)
    requires n < 10
    ensures Number(Digits(n)) == n && Number(Suffix(n)) == n
  {
    NumberAppends("", n);
    NumberAppends("", 0);
    NumberAppends("0", n);
    assert "" + Digits(n) == Digits(n);
    assert "" + "0" == "0";
  }

  /** Different numbers give different ids. */
  lemma CandidatesDiffer(role: string, m: nat, n: nat)
    requires Candidate(role, m) == Candidate(role, n)
    ensures m == n
  {
    assert Candidate(role, m)[|role| + 1..] == Suffix(m);
    assert Candidate(role, n)[|role| + 1..] == Suffix(n);
    DigitsRoundTrip(m);
    DigitsRoundTrip(n);
  }

  /** No more candidates than ids can be taken. */
  lemma {:induction false} Pigeonhole(role: string, ids: set<string>, n: nat)
    requires forall k :: 1 <= k <= n ==> Candidate(role, k) in ids
    ensures n <= |ids|
  {
    if n > 0 {
      var rest := ids - {Candidate(role, n)};
      forall k | 1 <= k <= n - 1 ensures Candidate(role, k) in rest {
        if Candidate(role, k) == Candidate(role, n) {
          CandidatesDiffer(role, k, n);
        }
      }
      Pigeonhole(role, rest, n - 1);
    }
  }

  /** The least free suffix from a given one on. */
  function LeastFree(role: string, ids: set<string>, from: nat): (n: nat)
    requires from >= 1 && forall k :: 1 <= k < from ==> Candidate(role, k) in ids
    ensures n >= from && Candidate(role, n) !in ids && forall k :: 1 <= k < n ==> Candidate(role, k) in ids
    decreases |ids| + 1 - from
  {
    Pigeonhole(role, ids, from - 1);
    if Candidate(role, from) !in ids then from
    else
      Pigeonhole(role, ids, from);
      LeastFree(role, ids, from + 1)
  }

  lemma LeastIs(role: string, ids: set<string>, n: nat)
    requires n >= 1 && Candidate(role, n) !in ids && forall k :: 1 <= k < n ==> Candidate(role, k) in ids
    ensures LeastFree(role, ids, 1) == n
  {
  }

  /** The ids that count as taken: blank ones do not. */
  function Ids(entries: seq<Entry>): set<string> {
    set e | e in entries && e.robotId.Some? && Strip(e.robotId.value) != "" :: e.robotId.value
  }

  function FreshId(role: string, entries: seq<Entry>): string {
    Candidate(role, LeastFree(role, Ids(entries), 1))
  }

  /** The search terminates because at most |ids| candidates can be taken, and finds the least free suffix. */
  method GenerateRobotId(role: string, entries: seq<Entry>) returns (id: string)
    ensures id == FreshId(role, entries)
    ensures exists n :: 1 <= n <= |Ids(entries)| + 1 && id == Candidate(role, n) && id !in Ids(entries)
                        && forall k :: 1 <= k < n ==> Candidate(role, k) in Ids(entries)
  {
    var existing := Ids(entries);
    var suffix: nat := 1;
    while Candidate(role, suffix) in existing
      invariant suffix >= 1 && forall k :: 1 <= k < suffix ==> Candidate(role, k) in existing
      decreases |existing| + 1 - suffix
    {
      Pigeonhole(role, existing, suffix);
      suffix := suffix + 1;
    }
    id := Candidate(role, suffix);
    Pigeonhole(role, existing, suffix - 1);
    LeastIs(role, existing, suffix);
  }

  predicate Matches(e: Entry, mac: string) {
    e.mac.Some? && NormalMac(e.mac.value) == mac
  }

  /** The first entry with that MAC address, or the number of entries. */
  function FirstMatch(entries: seq<Entry>, mac: string): (m: nat)
    ensures m <= |entries| && (m < |entries| ==> Matches(entries[m], mac))
    ensures forall i :: 0 <= i < m ==> !Matches(entries[i], mac)
  {
    if entries == [] then 0
    else if Matches(entries[0], mac) then 0
    else 1 + FirstMatch(entries[1..], mac)
  }

  lemma FirstMatchIs(entries: seq<Entry>, mac: string, m: nat)
    requires m <= |entries| && (m < |entries| ==> Matches(entries[m], mac))
    requires forall i :: 0 <= i < m ==> !Matches(entries[i], mac)
    ensures FirstMatch(entries, mac) == m
  {
  }

  /** The id to write: the requested one, else the matching entry's, else a fresh one. */
  function ChosenId(entries: seq<Entry>, m: nat, q: Request): string {
    if q.robotId.Some? then Strip(q.robotId.value)
    else if m < |entries| && entries[m].robotId.Some? then Strip(entries[m].robotId.value)
    else FreshId(Strip(q.role), entries)
  }

  predicate Taken(entries: seq<Entry>, m: nat, id: string) {
    exists i :: 0 <= i < |entries| && i != m && entries[i].robotId == Some(id)
  }

  function Refusal(roles: set<string>, q: Request): Option<Error> {
    if !q.success then Some(NotSuccessful)
    else if Strip(q.role) == "" || Strip(q.role) !in roles then Some(UnknownRole)
    else if Strip(q.mac) == "" || Strip(q.ip) == "" || Strip(q.sdkPath) == ""
            || (q.displayName.Some? && Strip(q.displayName.value) == "")
            || (q.robotId.Some? && Strip(q.robotId.value) == "") then Some(BlankField)
    else None
  }

  const NO_ENTRY := Entry(None, None, None, None, None, None, None)

  /** An entry with the request's values; what the request does not mention stays. */
  function Filled(e: Entry, id: string, q: Request): Entry {
    Entry(Some(id), Some(NormalMac(q.mac)), Some(Strip(q.ip)), Some(Strip(q.role)), Some(Strip(q.sdkPath)),
          Some(e.enabled.None? || e.enabled.value),
          if q.displayName.Some? then Some(Strip(q.displayName.value)) else e.displayName)
  }

  /** The entries after the write, or why it is refused. */
  function Upsert(roles: set<string>, entries: seq<Entry>, q: Request): Result<seq<Entry>, Error> {
    if Refusal(roles, q).Some? then Err(Refusal(roles, q).value)
    else
      var m := FirstMatch(entries, NormalMac(q.mac));
      var id := ChosenId(entries, m, q);
      if Taken(entries, m, id) then Err(DuplicateId)
      else if m < |entries| then Ok(entries[m := Filled(entries[m], id, q)])
      else Ok(entries + [Filled(NO_ENTRY, id, q)])
  }

  ghost predicate DistinctIds(entries: seq<Entry>) {
    forall i, j :: 0 <= i < j < |entries| && entries[i].robotId.Some? ==> entries[i].robotId != entries[j].robotId
  }

  ghost predicate DistinctMacs(entries: seq<Entry>) {
    forall i, j :: 0 <= i < j < |entries| && entries[i].mac.Some? && entries[j].mac.Some? ==>
      NormalMac(entries[i].mac.value) != NormalMac(entries[j].mac.value)
  }

  lemma LowerParts(s: string)
    requires s != ""
    ensures Lower(s)[1..] == Lower(s[1..]) && Lower(s)[..|s| - 1] == Lower(s[..|s| - 1])
  {
  }

  lemma LowerKeepsSpace(c: char)
    ensures IsSpace(LowerChar(c)) <==> IsSpace(c)
  {
  }

  lemma {:induction false} StripLower(s: string)
    ensures Strip(Lower(s)) == Lower(Strip(s))
  {
    if s != "" {
      LowerParts(s);
      LowerKeepsSpace(s[0]);
      LowerKeepsSpace(s[|s| - 1]);
      if IsSpace(s[0]) {
        StripLower(s[1..]);
      } else if IsSpace(s[|s| - 1]) {
        StripLower(s[..|s| - 1]);
      }
    }
  }

  lemma LowerIdempotent(s: string)
    ensures Lower(Lower(s)) == Lower(s)
  {
    assert forall i :: 0 <= i < |s| ==> Lower(Lower(s))[i] == Lower(s)[i];
  }

  lemma NormalMacIsNormal(mac: string)
    ensures NormalMac(NormalMac(mac)) == NormalMac(mac)
  {
    StripLower(Strip(mac));
    StripIdempotent(mac);
    LowerIdempotent(Strip(mac));
  }

  /** A successful write changes only the first entry with that MAC, or appends one; and the entry written carries
      the request's MAC. */
  lemma OnlyTheMatchChanges(roles: set<string>, entries: seq<Entry>, q: Request)
    ensures var r := Upsert(roles, entries, q);
            var m := FirstMatch(entries, NormalMac(q.mac));
            r.Ok? ==>
              && |r.value| == (if m < |entries| then |entries| else |entries| + 1)
              && Matches(r.value[m], NormalMac(q.mac))
              && (forall i :: 0 <= i < |entries| && i != m ==> r.value[i] == entries[i])
              && !Taken(r.value, m, r.value[m].robotId.value)
  {
    NormalMacIsNormal(q.mac);
  }

  /** A successful write keeps the ids and the normalised MAC addresses pairwise distinct. */
  lemma UpsertKeepsDistinct(roles: set<string>, entries: seq<Entry>, q: Request)
    requires Upsert(roles, entries, q).Ok?
    ensures DistinctIds(entries) ==> DistinctIds(Upsert(roles, entries, q).value)
    ensures DistinctMacs(entries) ==> DistinctMacs(Upsert(roles, entries, q).value)
  {
    OnlyTheMatchChanges(roles, entries, q);
  }

  /** A generated id is never refused. */
  lemma FreshIdIsNotTaken(role: string, entries: seq<Entry>, m: nat)
    requires Strip(role) == role && role != ""
    ensures Strip(FreshId(role, entries)) == FreshId(role, entries) && !Taken(entries, m, FreshId(role, entries))
  {
    var n := LeastFree(role, Ids(entries), 1);
    var id := Candidate(role, n);
    DigitsRoundTrip(n);
    assert id[0] == role[0] && id[|id| - 1] == Digits(n)[|Digits(n)| - 1];
    StripKeepsEnds(role);
  }

  lemma {:induction false} StripKeepsEnds(s: string)
    ensures Strip(s) != "" ==> !IsSpace(Strip(s)[0]) && !IsSpace(Strip(s)[|Strip(s)| - 1])
  {
    if s == "" {
    } else if IsSpace(s[0]) {
      StripKeepsEnds(s[1..]);
    } else if IsSpace(s[|s| - 1]) {
      StripKeepsEnds(s[..|s| - 1]);
    }
  }

  /** A write is refused as a duplicate exactly when a requested or inherited id is another entry's. */
  lemma RefusedExactlyForTakenIds(roles: set<string>, entries: seq<Entry>, q: Request)
    requires Refusal(roles, q).None?
    ensures var m := FirstMatch(entries, NormalMac(q.mac));
            Upsert(roles, entries, q) == Err(DuplicateId) <==>
              && (q.robotId.Some? || (m < |entries| && entries[m].robotId.Some?))
              && Taken(entries, m, Strip(if q.robotId.Some? then q.robotId.value else entries[m].robotId.value))
  {
    StripIdempotent(q.role);
    FreshIdIsNotTaken(Strip(q.role), entries, FirstMatch(entries, NormalMac(q.mac)));
  }

  lemma ChosenIdIsStripped(roles: set<string>, entries: seq<Entry>, m: nat, q: Request)
    requires Refusal(roles, q).None?
    ensures Strip(ChosenId(entries, m, q)) == ChosenId(entries, m, q)
  {
    StripIdempotent(q.role);
    FreshIdIsNotTaken(Strip(q.role), entries, m);
    if q.robotId.Some? {
      StripIdempotent(q.robotId.value);
    } else if m < |entries| && entries[m].robotId.Some? {
      StripIdempotent(entries[m].robotId.value);
    }
  }

  /** Writing the same robot again changes nothing. */
  lemma UpsertIsIdempotent(roles: set<string>, entries: seq<Entry>, q: Request)
    requires Upsert(roles, entries, q).Ok?
    ensures Upsert(roles, Upsert(roles, entries, q).value, q) == Upsert(roles, entries, q)
  {
    var m := FirstMatch(entries, NormalMac(q.mac));
    var written := Upsert(roles, entries, q).value;
    OnlyTheMatchChanges(roles, entries, q);
    ChosenIdIsStripped(roles, entries, m, q);
    FirstMatchIs(written, NormalMac(q.mac), m);
    assert ChosenId(written, m, q) == ChosenId(entries, m, q);
    assert written[m := Filled(written[m], ChosenId(written, m, q), q)] == written;
  }

  /** The file after a sequence of writes, refused ones leaving it alone. */
  function WriteAll(roles: set<string>, requests: seq<Request>): seq<Entry> {
    if requests == [] then []
    else
      var before := WriteAll(roles, requests[..|requests| - 1]);
      var r := Upsert(roles, before, requests[|requests| - 1]);
      if r.Ok? then r.value else before
  }

  /** In every file written only by provisioning, ids and MAC addresses are pairwise distinct. */
  lemma {:induction false} ProvisionedFilesAreDistinct(roles: set<string>, requests: seq<Request>)
    ensures DistinctIds(WriteAll(roles, requests)) && DistinctMacs(WriteAll(roles, requests))
  {
    if requests != [] {
      ProvisionedFilesAreDistinct(roles, requests[..|requests| - 1]);
      var before := WriteAll(roles, requests[..|requests| - 1]);
      if Upsert(roles, before, requests[|requests| - 1]).Ok? {
        UpsertKeepsDistinct(roles, before, requests[|requests| - 1]);
      }
    }
  }

  // ---------- what is written ----------

  /** The entry written carries the request's values without outer blanks; a new one is enabled, an old one keeps what
      it says about that; and without a display name in the request an old one is kept. */
  lemma WrittenEntryExactly(roles: set<string>, entries: seq<Entry>, q: Request)
    requires Upsert(roles, entries, q).Ok?
    ensures var m := FirstMatch(entries, NormalMac(q.mac));
            var e := Upsert(roles, entries, q).value[m];
            && e.mac == Some(NormalMac(q.mac)) && e.ip == Some(Strip(q.ip))
            && e.role == Some(Strip(q.role)) && e.sdkPath == Some(Strip(q.sdkPath))
            && (q.robotId.Some? ==> e.robotId == Some(Strip(q.robotId.value)))
            && (q.displayName.Some? ==> e.displayName == Some(Strip(q.displayName.value)))
            && (m == |entries| ==> e.enabled == Some(true) && (q.displayName == None ==> e.displayName == None))
            && (m < |entries| && entries[m].enabled.Some? ==> e.enabled == entries[m].enabled)
            && (m < |entries| && entries[m].enabled == None ==> e.enabled == Some(true))
            && (m < |entries| && q.displayName == None ==> e.displayName == entries[m].displayName)
            && (m < |entries| && q.robotId == None && entries[m].robotId.Some? ==>
                  e.robotId == Some(Strip(entries[m].robotId.value)))
            && (q.robotId == None && (m == |entries| || entries[m].robotId == None) ==>
                  exists n :: n >= 1 && e.robotId == Some(Candidate(Strip(q.role), n))
                              && forall k :: 1 <= k < n ==> Candidate(Strip(q.role), k) in Ids(entries))
  {
    var m := FirstMatch(entries, NormalMac(q.mac));
    WrittenIsFilled(roles, entries, q);
    if q.robotId == None && (m == |entries| || entries[m].robotId == None) {
      FreshIdIsLeast(entries, Strip(q.role));
    }
  }

  lemma WrittenIsFilled(roles: set<string>, entries: seq<Entry>, q: Request)
    requires Upsert(roles, entries, q).Ok?
    ensures var m, written := FirstMatch(entries, NormalMac(q.mac)), Upsert(roles, entries, q).value;
            && m < |written|
            && written[m] == Filled(if m < |entries| then entries[m] else NO_ENTRY, ChosenId(entries, m, q), q)
  {
  }

  lemma FreshIdIsLeast(entries: seq<Entry>, role: string)
    ensures exists n :: n >= 1 && FreshId(role, entries) == Candidate(role, n)
                        && forall k :: 1 <= k < n ==> Candidate(role, k) in Ids(entries)
  {
    var n := LeastFree(role, Ids(entries), 1);
    assert n >= 1 && FreshId(role, entries) == Candidate(role, n);
  }

  /** A request is turned down, before the file is looked at, for an unsuccessful provisioning, an unknown role or a
      blank value. */
  lemma RequestsAreRefusedExactly(roles: set<string>, q: Request)
    ensures var unknown := Strip(q.role) == "" || Strip(q.role) !in roles;
            var blank := Strip(q.mac) == "" || Strip(q.ip) == "" || Strip(q.sdkPath) == ""
                         || (q.robotId.Some? && Strip(q.robotId.value) == "")
                         || (q.displayName.Some? && Strip(q.displayName.value) == "");
            && (Refusal(roles, q) == Some(NotSuccessful) <==> !q.success)
            && (Refusal(roles, q) == Some(UnknownRole) <==> q.success && unknown)
            && (Refusal(roles, q) == Some(BlankField) <==> q.success && !unknown && blank)
            && (Refusal(roles, q) == None <==> q.success && !unknown && !blank)
  {
  }

  /** A generated id is the role, an underscore and the number in at least two digits, with no more zeros than that. */
  lemma CandidateIsSpelt(role: string, n: nat)
    ensures exists digits :: Candidate(role, n) == role + "_" + digits && |digits| >= 2 && Number(digits) == n
                             && (|digits| > 2 ==> digits[0] != '0')
                             && forall i :: 0 <= i < |digits| ==> '0' <= digits[i] <= '9'
  {
    DigitsRoundTrip(n);
    DigitsAreDigits(n);
    var digits := Suffix(n);
    assert Candidate(role, n) == role + "_" + digits;
    if n >= 10 {
      DigitsAreDigits(n / 10);
    }
  }

  lemma {:induction false} DigitsAreDigits(n: nat)
    ensures Digits(n) != "" && forall i :: 0 <= i < |Digits(n)| ==> '0' <= Digits(n)[i] <= '9'
    ensures n > 0 ==> Digits(n)[0] != '0'
  {
    if n >= 10 {
      DigitsAreDigits(n / 10);
    }
  }

  /** The same address but for the case of its letters. */
  predicate SameButCase(a: string, b: string) {
    |a| == |b| && forall i :: 0 <= i < |a| ==>
      || a[i] == b[i]
      || ('A' <= a[i] <= 'Z' && b[i] as int == a[i] as int + 32)
      || ('A' <= b[i] <= 'Z' && a[i] as int == b[i] as int + 32)
  }

  /** Addresses count as the same exactly if they are, but for blanks around them and the case of their letters. */
  lemma AddressesMatchExactly(a: string, b: string)
    ensures NormalMac(a) == NormalMac(b) <==> SameButCase(Strip(a), Strip(b))
  {
    var x, y := Strip(a), Strip(b);
    if NormalMac(a) == NormalMac(b) {
      assert |x| == |y|;
      forall i | 0 <= i < |x|
        ensures x[i] == y[i] || ('A' <= x[i] <= 'Z' && y[i] as int == x[i] as int + 32)
                || ('A' <= y[i] <= 'Z' && x[i] as int == y[i] as int + 32)
      {
        assert LowerChar(x[i]) == Lower(x)[i] == Lower(y)[i] == LowerChar(y[i]);
      }
    }
    if SameButCase(x, y) {
      assert forall i :: 0 <= i < |x| ==> Lower(x)[i] == Lower(y)[i];
    }
  }

  /** The robots file, edited in place. */
  class RobotsFile {
    var entries: seq<Entry>

    constructor ()
      ensures entries == []
    {
      entries := [];
    }

    method FindEntryByMac(mac: string) returns (m: nat)
      ensures m == FirstMatch(entries, mac)
    {
      m := 0;
      while m < |entries| && !Matches(entries[m], mac)
        invariant m <= |entries| && forall i :: 0 <= i < m ==> !Matches(entries[i], mac)
      {
        m := m + 1;
      }
      FirstMatchIs(entries, mac, m);
    }

    method EnsureRobotIdIsAvailable(id: string, current: nat) returns (available: bool)
      ensures available <==> !Taken(entries, current, id)
    {
      for i := 0 to |entries|
        invariant forall j :: 0 <= j < i && j != current ==> entries[j].robotId != Some(id)
      {
        if i != current && entries[i].robotId == Some(id) {
          return false;
        }
      }
      return true;
    }

    method WriteRobotEntry(roles: set<string>, q: Request) returns (r: Result<Entry, Error>)
      modifies this
      ensures Upsert(roles, old(entries), q).Err? ==>
                r == Err(Upsert(roles, old(entries), q).error) && entries == old(entries)
      ensures Upsert(roles, old(entries), q).Ok? ==>
                r.Ok? && entries == Upsert(roles, old(entries), q).value
                && r.value == entries[FirstMatch(old(entries), NormalMac(q.mac))]
    {
      if Refusal(roles, q).Some? {
        return Err(Refusal(roles, q).value);
      }
      var m := FindEntryByMac(NormalMac(q.mac));
      var id;
      if q.robotId.Some? {
        id := Strip(q.robotId.value);
      } else if m < |entries| && entries[m].robotId.Some? {
        id := Strip(entries[m].robotId.value);
      } else {
        id := GenerateRobotId(Strip(q.role), entries);
      }
      var available := EnsureRobotIdIsAvailable(id, m);
      if !available {
        return Err(DuplicateId);
      }
      if m == |entries| {
        entries := entries + [Filled(NO_ENTRY, id, q)];
      } else {
        entries := entries[m := Filled(entries[m], id, q)];
      }
      return Ok(entries[m]);
    }
  }
}

/**
 The Crosvm command layer: parsing of its textual responses, the USB attach
 retry loop with its identification of the new port, and the VFIO add and
 remove loops that confirm their effect in the VM's own listing.
 */
module Crosvm {
  import opened Prelude

  // ----- text -----

  /** The characters with the Unicode White_Space property. */
  predicate IsWhitespace(c: char) {
    var n := c as int;
    || 0x09 <= n <= 0x0d || n == 0x20 || n == 0x85 || n == 0xa0 || n == 0x1680
    || 0x2000 <= n <= 0x200a || n == 0x2028 || n == 0x2029 || n == 0x202f || n == 0x205f || n == 0x3000
  }

  predicate IsBlank(s: string) {
    forall i :: 0 <= i < |s| ==> IsWhitespace(s[i])
  }

  predicate IsToken(t: string) {
    t != [] && forall i :: 0 <= i < |t| ==> !IsWhitespace(t[i])
  }

  function TokenLength(s: string): (n: nat)
    ensures n <= |s|
    ensures forall i :: 0 <= i < n ==> !IsWhitespace(s[i])
    ensures n < |s| ==> IsWhitespace(s[n])
  {
    if s == [] || IsWhitespace(s[0]) then 0 else 1 + TokenLength(s[1..])
  }

  /** Splitting at runs of whitespace. */
  function Fields(s: string): seq<string>
    decreases |s|
  {
    if s == [] then []
    else if IsWhitespace(s[0]) then Fields(s[1..])
    else [s[..TokenLength(s)]] + Fields(s[TokenLength(s)..])
  }

  lemma {:induction false} FieldsSkipBlank(blank: string, rest: string)
    requires IsBlank(blank)
    ensures Fields(blank + rest) == Fields(rest)
  {
    if blank == [] {
      assert blank + rest == rest;
    } else {
      assert (blank + rest)[1..] == blank[1..] + rest;
      FieldsSkipBlank(blank[1..], rest);
    }
  }

  lemma FieldsTakeToken(token: string, rest: string)
    requires IsToken(token)
    requires rest != [] ==> IsWhitespace(rest[0])
    ensures Fields(token + rest) == [token] + Fields(rest)
  {
    var s := token + rest;
    var n := TokenLength(s);
    assert forall i :: 0 <= i < |token| ==> s[i] == token[i];
    assert n >= |token|;
    assert rest != [] ==> s[|token|] == rest[0];
    assert s[..n] == token && s[n..] == rest;
  }

  function Digit(d: nat): char
    requires d < 10
  {
    ('0' as int + d) as char
  }

  function Decimal(n: nat): string {
    if n < 10 then [Digit(n)] else Decimal(n / 10) + [Digit(n % 10)]
  }

  function DigitsValue(s: string, acc: nat): Option<nat> {
    if s == [] then Some(acc)
    else if '0' <= s[0] <= '9' then DigitsValue(s[1..], acc * 10 + (s[0] as int - '0' as int))
    else None
  }

  /** An unsigned byte in decimal: an optional plus sign, at least one digit,
      and a value of at most 255. */
  function ParseU8(s: string): (r: Option<nat>)
    ensures r.Some? ==> r.value <= 255
  {
    var digits := if s != [] && s[0] == '+' then s[1..] else s;
    if digits == [] then None
    else match DigitsValue(digits, 0)
      case None => None
      case Some(n) => if n <= 255 then Some(n) else None
  }

  lemma {:induction false} DigitsOfDecimal(n: nat, rest: string)
    ensures DigitsValue(Decimal(n) + rest, 0) == DigitsValue(rest, n)
    ensures IsToken(Decimal(n)) && Decimal(n)[0] != '+'
  {
    if n < 10 {
      assert ([Digit(n)] + rest)[1..] == rest;
    } else {
      var last := [Digit(n % 10)];
      DigitsOfDecimal(n / 10, last + rest);
      assert Decimal(n) + rest == Decimal(n / 10) + (last + rest);
      assert (last + rest)[1..] == rest;
    }
  }

  lemma ParseDecimal(n: nat)
    requires n <= 255
    ensures ParseU8(Decimal(n)) == Some(n)
  {
    DigitsOfDecimal(n, []);
    assert Decimal(n) + [] == Decimal(n);
  }

  // ----- the USB listing -----

  datatype Entry = Entry(port: nat, vid: string, pid: string)

  datatype Error =
    | CommandFailed
    | MalformedList
    | InvalidPort
    | UnexpectedResponse
    | NotIdentified
    | NoFreePort
    | NotConfirmed

  function ParseChunks(fields: seq<string>): (r: Option<seq<Entry>>)
    requires |fields| % 3 == 0
    ensures r.Some? <==> forall i :: 0 <= i < |fields| && i % 3 == 0 ==> ParseU8(fields[i]).Some?
    ensures r.Some? ==> |r.value| * 3 == |fields|
  {
    if fields == [] then Some([])
    else
      var port := ParseU8(fields[0]);
      var rest := ParseChunks(fields[3..]);
      assert forall i :: 3 <= i < |fields| ==> fields[i] == fields[3..][i - 3];
      if port.Some? && rest.Some? then Some([Entry(port.value, fields[1], fields[2])] + rest.value)
      else None
  }

  function ParseUsbList(output: string): (r: Result<seq<Entry>, Error>)
    ensures r.Ok? ==> |Fields(output)| == 1 + 3 * |r.value|
  {
    var fields := Fields(output);
    if fields == [] || fields[0] != "devices" || (|fields| - 1) % 3 != 0 then Err(MalformedList)
    else match ParseChunks(fields[1..])
      case Some(entries) => Ok(entries)
      case None => Err(InvalidPort)
  }

  predicate IsEntry(e: Entry) {
    e.port <= 255 && IsToken(e.vid) && IsToken(e.pid)
  }

  /** The blank space in front of each of the three fields of an entry. */
  datatype Gaps = Gaps(port: string, vid: string, pid: string)

  predicate IsGap(gap: string) {
    gap != [] && IsBlank(gap)
  }

  predicate AreGaps(gaps: Gaps) {
    IsGap(gaps.port) && IsGap(gaps.vid) && IsGap(gaps.pid)
  }

  function RenderEntries(entries: seq<Entry>, gaps: seq<Gaps>, end: string): string
    requires |gaps| == |entries|
  {
    if entries == [] then end
    else RenderEntry(entries[0], gaps[0], RenderEntries(entries[1..], gaps[1..], end))
  }

  function RenderEntry(e: Entry, gaps: Gaps, tail: string): string {
    gaps.port + (Decimal(e.port) + (gaps.vid + (e.vid + (gaps.pid + (e.pid + tail)))))
  }

  function EntryFields(entries: seq<Entry>): seq<string> {
    if entries == [] then []
    else [Decimal(entries[0].port), entries[0].vid, entries[0].pid] + EntryFields(entries[1..])
  }

  /** One gap and one token in front of an already rendered tail. */
  lemma FieldsOfOne(gap: string, token: string, tail: string)
    requires IsGap(gap) && IsToken(token)
    requires tail != [] ==> IsWhitespace(tail[0])
    ensures Fields(gap + (token + tail)) == [token] + Fields(tail)
    ensures gap + (token + tail) != [] && IsWhitespace((gap + (token + tail))[0])
  {
    FieldsSkipBlank(gap, token + tail);
    FieldsTakeToken(token, tail);
  }

  lemma FieldsOfEntry(e: Entry, gaps: Gaps, tail: string)
    requires IsEntry(e) && AreGaps(gaps)
    requires tail != [] ==> IsWhitespace(tail[0])
    ensures var s := RenderEntry(e, gaps, tail);
      && Fields(s) == [Decimal(e.port), e.vid, e.pid] + Fields(tail)
      && s != [] && IsWhitespace(s[0])
  {
    DigitsOfDecimal(e.port, []);
    var afterVid := gaps.pid + (e.pid + tail);
    var afterPort := gaps.vid + (e.vid + afterVid);
    FieldsOfOne(gaps.pid, e.pid, tail);
    FieldsOfOne(gaps.vid, e.vid, afterVid);
    FieldsOfOne(gaps.port, Decimal(e.port), afterPort);
    ThreeInFront(Decimal(e.port), e.vid, e.pid, Fields(tail));
  }

  lemma ThreeInFront(a: string, b: string, c: string, rest: seq<string>)
    ensures [a] + ([b] + ([c] + rest)) == [a, b, c] + rest
  {
  }

  lemma {:induction false} FieldsOfRendering(entries: seq<Entry>, gaps: seq<Gaps>, end: string)
    requires |gaps| == |entries| && forall i :: 0 <= i < |entries| ==> IsEntry(entries[i]) && AreGaps(gaps[i])
    requires IsBlank(end)
    ensures Fields(RenderEntries(entries, gaps, end)) == EntryFields(entries)
    ensures var s := RenderEntries(entries, gaps, end); s != [] ==> IsWhitespace(s[0])
  {
    if entries == [] {
      FieldsSkipBlank(end, []);
      assert end + [] == end;
    } else {
      FieldsOfRendering(entries[1..], gaps[1..], end);
      FieldsOfEntry(entries[0], gaps[0], RenderEntries(entries[1..], gaps[1..], end));
    }
  }

  lemma {:induction false} ChunksOfEntryFields(entries: seq<Entry>)
    requires forall i :: 0 <= i < |entries| ==> IsEntry(entries[i])
    ensures |EntryFields(entries)| % 3 == 0 && ParseChunks(EntryFields(entries)) == Some(entries)
  {
    if entries != [] {
      ChunksOfEntryFields(entries[1..]);
      ParseDecimal(entries[0].port);
      assert EntryFields(entries)[3..] == EntryFields(entries[1..]);
      assert entries == [entries[0]] + entries[1..];
    }
  }

  /** Any listing parses back to what was listed, whatever blank space stands
      before, between and after its fields. */
  lemma UsbListRoundTrip(entries: seq<Entry>, start: string, gaps: seq<Gaps>, end: string)
    requires |gaps| == |entries| && forall i :: 0 <= i < |entries| ==> IsEntry(entries[i]) && AreGaps(gaps[i])
    requires IsBlank(start) && IsBlank(end)
    ensures ParseUsbList(start + ("devices" + RenderEntries(entries, gaps, end))) == Ok(entries)
  {
    ListingFields(entries, start, gaps, end);
    ChunksOfEntryFields(entries);
    ParseFields(start + ("devices" + RenderEntries(entries, gaps, end)), EntryFields(entries));
  }

  lemma ListingFields(entries: seq<Entry>, start: string, gaps: seq<Gaps>, end: string)
    requires |gaps| == |entries| && forall i :: 0 <= i < |entries| ==> IsEntry(entries[i]) && AreGaps(gaps[i])
    requires IsBlank(start) && IsBlank(end)
    ensures Fields(start + ("devices" + RenderEntries(entries, gaps, end))) == ["devices"] + EntryFields(entries)
  {
    FieldsOfRendering(entries, gaps, end);
    HeaderIsToken();
    HeadedFields(start, "devices", RenderEntries(entries, gaps, end));
  }

  lemma HeaderIsToken()
    ensures IsToken("devices")
  {
  }

  lemma HeadedFields(start: string, word: string, listing: string)
    requires IsBlank(start) && IsToken(word) && (listing != [] ==> IsWhitespace(listing[0]))
    ensures Fields(start + (word + listing)) == [word] + Fields(listing)
  {
    FieldsTakeToken(word, listing);
    FieldsSkipBlank(start, word + listing);
  }

  lemma ParseFields(output: string, fields: seq<string>)
    requires Fields(output) == ["devices"] + fields && |fields| % 3 == 0 && ParseChunks(fields).Some?
    ensures ParseUsbList(output) == Ok(ParseChunks(fields).value)
  {
    assert (["devices"] + fields)[1..] == fields;
  }

  // ----- commands -----

  datatype Ident = Ident(vid: string, pid: string)

  /** What a Crosvm attach did, seen from outside: nothing, a port that the
      caller learned, or a port the caller was not told about. */
  datatype AttachOutcome = Refused | Taken(port: nat) | Lost(port: nat)

  /** The port table after that outcome. */
  function AfterAttach(ports: map<nat, Ident>, ident: Ident, outcome: AttachOutcome): map<nat, Ident> {
    if outcome.Refused? then ports else ports[outcome.port := ident]
  }

  /** The text of a command that exited with status zero, or its failure. */
  type Reply = Option<string>

  function FirstField(text: string): Option<string> {
    if Fields(text) == [] then None else Some(Fields(text)[0])
  }

  predicate Accepted(reply: Reply) {
    reply.Some? && FirstField(reply.value) == Some("ok")
  }

  function ReportedPort(text: string): Option<nat> {
    if |Fields(text)| < 2 then None else ParseU8(Fields(text)[1])
  }

  /** A listing tells the truth about a port table and names no port twice. */
  predicate Lists(entries: seq<Entry>, ports: map<nat, Ident>) {
    && (forall e :: e in entries ==> e.port in ports && ports[e.port] == Ident(e.vid, e.pid))
    && (forall p :: p in ports ==> exists e :: e in entries && e.port == p)
    && (forall i, j :: 0 <= i < j < |entries| ==> entries[i].port != entries[j].port)
  }

  /** A VM as its control socket presents it, and what it has answered so far.
      The methods below are the environment: each may fail, and says no more
      than a truthful VM would. */
  class GuestSocket {
    var ports: map<nat, Ident>
    var vfio: set<string>
    var arriving: set<string>
    var leaving: set<string>
    ghost var usbListings: seq<Result<seq<Entry>, Error>>
    ghost var replies: seq<Reply>
    ghost var vfioListings: seq<Result<set<string>, Error>>
    ghost var vfioReplies: seq<bool>

    constructor ()
      ensures ports == map[] && vfio == {} && arriving == {} && leaving == {}
      ensures usbListings == [] && replies == [] && vfioListings == [] && vfioReplies == []
    {
      ports, vfio, arriving, leaving := map[], {}, {}, {};
      usbListings, replies, vfioListings, vfioReplies := [], [], [], [];
    }

    method UsbListCommand() returns (r: Result<seq<Entry>, Error>)
      modifies `usbListings
      ensures usbListings == old(usbListings) + [r]
      ensures r.Ok? ==> Lists(r.value, ports)
      ensures r.Err? ==> r.error != NotIdentified && r.error != NoFreePort && r.error != UnexpectedResponse
    {
      var entries: seq<Entry> := *;
      r := if Lists(entries, ports) then Ok(entries) else Err(CommandFailed);
      usbListings := usbListings + [r];
    }

    /** An accepted attach adds one fresh port; a port the reply names is that port. */
    method UsbAttachCommand(ident: Ident) returns (reply: Reply, ghost outcome: AttachOutcome)
      modifies `ports, `replies
      ensures replies == old(replies) + [reply]
      ensures !Accepted(reply) ==> outcome == Refused
      ensures Accepted(reply) ==> outcome.Taken? && outcome.port !in old(ports)
      ensures Accepted(reply) && ReportedPort(reply.value).Some? ==> ReportedPort(reply.value) == Some(outcome.port)
      ensures ports == AfterAttach(old(ports), ident, outcome)
    {
      outcome := Refused;
      var text: string := *;
      var port: nat := *;
      reply := Some(text);
      if Accepted(reply) {
        if port in ports || (ReportedPort(text).Some? && ReportedPort(text) != Some(port)) {
          reply := None;
        } else {
          outcome := Taken(port);
          ports := ports[port := ident];
        }
      }
      replies := replies + [reply];
    }

    /** A listing taken while accepted hotplug requests complete in their own time. */
    method VfioListCommand() returns (r: Result<set<string>, Error>)
      modifies `vfio, `arriving, `leaving, `vfioListings
      ensures vfioListings == old(vfioListings) + [r]
      ensures r.Ok? ==> r.value == vfio
      ensures r.Err? ==> r.error == CommandFailed
      ensures old(vfio) - old(leaving) <= vfio <= old(vfio) + old(arriving)
      ensures arriving <= old(arriving) && leaving <= old(leaving)
    {
      var landed: set<string> := *;
      var left: set<string> := *;
      vfio := vfio + (landed * arriving) - (left * leaving);
      arriving, leaving := arriving - landed, leaving - left;
      var answered: bool := *;
      r := if answered then Ok(vfio) else Err(CommandFailed);
      vfioListings := vfioListings + [r];
    }

    method VfioAddCommand(path: string) returns (accepted: bool)
      modifies `arriving, `vfioReplies
      ensures vfioReplies == old(vfioReplies) + [accepted]
      ensures arriving == if accepted then old(arriving) + {path} else old(arriving)
    {
      accepted := *;
      vfioReplies := vfioReplies + [accepted];
      if accepted {
        arriving := arriving + {path};
      }
    }

    method VfioRemoveCommand(path: string) returns (accepted: bool)
      modifies `leaving, `vfioReplies
      ensures vfioReplies == old(vfioReplies) + [accepted]
      ensures leaving == if accepted then old(leaving) + {path} else old(leaving)
    {
      accepted := *;
      vfioReplies := vfioReplies + [accepted];
      if accepted {
        leaving := leaving + {path};
      }
    }
  }

  /** The listing after an attach differs from the listing before in exactly
      the new port, so filtering out the old ports identifies it. */
  lemma NewPortIsIdentified(before: seq<Entry>, after: seq<Entry>, ports: map<nat, Ident>, port: nat, ident: Ident)
    requires Lists(before, ports) && port !in ports
    requires Lists(after, ports[port := ident])
    ensures NewPorts(before, after) == [port]
  {
    assert port in ports[port := ident];
    var added :| added in after && added.port == port;
    var k :| 0 <= k < |after| && after[k] == added;
    forall i | 0 <= i < |after| && i != k ensures PortListed(before, after[i].port) {
      assert after[i] in after;
      var e :| e in before && e.port == after[i].port;
    }
    assert !PortListed(before, port);
    OneSurvivor(before, after, k);
  }

  predicate PortListed(entries: seq<Entry>, port: nat) {
    exists e :: e in entries && e.port == port
  }

  function NewPorts(before: seq<Entry>, after: seq<Entry>): seq<nat> {
    if after == [] then []
    else (if PortListed(before, after[0].port) then [] else [after[0].port]) + NewPorts(before, after[1..])
  }

  lemma {:induction false} OneSurvivor(before: seq<Entry>, after: seq<Entry>, k: int)
    requires k < |after|
    requires forall i :: 0 <= i < |after| && i != k ==> PortListed(before, after[i].port)
    requires 0 <= k ==> !PortListed(before, after[k].port)
    ensures NewPorts(before, after) == if 0 <= k then [after[k].port] else []
  {
    if after != [] {
      OneSurvivor(before, after[1..], k - 1);
    }
  }

  /** The VM has no port free at the moment. */
  predicate Busy(reply: Reply) {
    reply.Some? && FirstField(reply.value) == Some("no_available_port")
  }

  /** What the answers of a VM to up to six attach commands come to, and what
      its listings before and after tell: each busy answer is followed by
      another try, and the sixth is the last. */
  ghost predicate Answers(listings: seq<Result<seq<Entry>, Error>>, replies: seq<Reply>, r: Result<nat, Error>) {
    && 1 <= |listings| <= 2 && |replies| <= 6
    && (forall i :: 0 <= i < |replies| - 1 ==> Busy(replies[i]))
    && (listings[0].Err? <==> replies == [])
    && if replies == [] then r == Err(listings[0].error) && |listings| == 1
       else
         var last := replies[|replies| - 1];
         if Busy(last) then |replies| == 6 && r == Err(NoFreePort) && |listings| == 1
         else if last.None? then r == Err(CommandFailed) && |listings| == 1
         else if !Accepted(last) then r == Err(UnexpectedResponse) && |listings| == 1
         else if ReportedPort(last.value).Some? then r == Ok(ReportedPort(last.value).value) && |listings| == 1
         else |listings| == 2 && (if listings[1].Err? then r == Err(listings[1].error) else r.Ok?)
  }

  /** The loop asks again as long as the VM has no port free, six times in all,
      and its result is what the answers come to. An Ok result names the one
      fresh port the device now occupies; an error leaves the table as it was,
      except that when the listing needed to identify the port fails, the
      device stays at a port nobody was told about. */
  method UsbAttach(guest: GuestSocket, ident: Ident) returns (r: Result<nat, Error>, ghost outcome: AttachOutcome)
    modifies guest`ports, guest`replies, guest`usbListings
    ensures old(guest.replies) <= guest.replies && old(guest.usbListings) <= guest.usbListings
    ensures Answers(guest.usbListings[|old(guest.usbListings)|..], guest.replies[|old(guest.replies)|..], r)
    ensures guest.ports == AfterAttach(old(guest.ports), ident, outcome)
    ensures !outcome.Refused? ==> outcome.port !in old(guest.ports)
    ensures r.Ok? <==> outcome.Taken?
    ensures r.Ok? ==> outcome == Taken(r.value)
  {
    ghost var listings, replies := guest.usbListings, guest.replies;
    outcome := Refused;
    var listed := guest.UsbListCommand();
    if listed.Err? {
      return Err(listed.error), Refused;
    }
    for attempt := 0 to 6
      invariant guest.ports == old(guest.ports) && guest.usbListings == listings + [listed]
      invariant replies <= guest.replies && |guest.replies| == |replies| + attempt
      invariant forall i :: |replies| <= i < |guest.replies| ==> Busy(guest.replies[i])
      invariant outcome == Refused
    {
      var reply, done := guest.UsbAttachCommand(ident);
      if reply.None? {
        return Err(CommandFailed), Refused;
      }
      if FirstField(reply.value) == Some("ok") {
        var reported := ReportedPort(reply.value);
        if reported.Some? {
          return Ok(reported.value), done;
        }
        var after := guest.UsbListCommand();
        if after.Err? {
          return Err(after.error), Lost(done.port);
        }
        var added := NewPorts(listed.value, after.value);
        NewPortIsIdentified(listed.value, after.value, old(guest.ports), done.port, ident);
        r := if |added| == 1 then Ok(added[0]) else Err(NotIdentified);
        return r, done;
      }
      if FirstField(reply.value) != Some("no_available_port") {
        return Err(UnexpectedResponse), Refused;
      }
    }
    r := Err(NoFreePort);
  }

  /** The VM's listing shows the function, or shows that it is gone. */
  predicate Settled(listing: Result<set<string>, Error>, path: string, present: bool) {
    listing.Ok? && (path in listing.value <==> present)
  }

  /** What the answers to a hotplug come to: no command if it is done already,
      otherwise one, and then up to six listings until it is. */
  ghost predicate Confirms(listings: seq<Result<set<string>, Error>>, replies: seq<bool>, path: string, present: bool,
                           r: Result<(), Error>)
  {
    && listings != []
    && (replies == [] <==> listings[0].Err? || Settled(listings[0], path, present))
    && |replies| <= 1 && (replies in [[], [false]] ==> |listings| == 1)
    && (replies == [false] ==> r == Err(CommandFailed))
    && (replies == [] || replies == [true] ==>
          var last := listings[|listings| - 1];
          && (forall i :: 0 <= i < |listings| - 1 ==> listings[i].Ok? && !Settled(listings[i], path, present))
          && (if last.Err? then r == Err(last.error)
              else if Settled(last, path, present) then r == Ok(())
              else |listings| == 7 && r == Err(NotConfirmed)))
    && |listings| <= 7
  }

  /** Success means the VM itself lists the function. */
  method VfioAdd(guest: GuestSocket, path: string) returns (r: Result<(), Error>)
    modifies guest
    ensures old(guest.vfioListings) <= guest.vfioListings && old(guest.vfioReplies) <= guest.vfioReplies
    ensures Confirms(guest.vfioListings[|old(guest.vfioListings)|..], guest.vfioReplies[|old(guest.vfioReplies)|..],
                     path, true, r)
    ensures r.Ok? ==> path in guest.vfio
    ensures path in old(guest.vfio) && path !in old(guest.leaving) ==>
              path in guest.vfio && guest.vfioReplies == old(guest.vfioReplies)
    ensures r == Err(NotConfirmed) ==> path !in guest.vfio
    ensures guest.vfio <= old(guest.vfio) + old(guest.arriving) + {path}
  {
    ghost var listings := guest.vfioListings;
    var listed := guest.VfioListCommand();
    if listed.Err? {
      return Err(listed.error);
    }
    if path in listed.value {
      return Ok(());
    }
    var accepted := guest.VfioAddCommand(path);
    if !accepted {
      return Err(CommandFailed);
    }
    for attempt := 0 to 6
      invariant guest.vfioReplies == old(guest.vfioReplies) + [true]
      invariant listings <= guest.vfioListings && |guest.vfioListings| == |listings| + 1 + attempt
      invariant forall i :: |listings| <= i < |guest.vfioListings| ==>
                              guest.vfioListings[i].Ok? && path !in guest.vfioListings[i].value
      invariant guest.vfio + guest.arriving <= old(guest.vfio) + old(guest.arriving) + {path}
      invariant attempt > 0 ==> path !in guest.vfio
    {
      listed := guest.VfioListCommand();
      if listed.Err? {
        return Err(listed.error);
      }
      if path in listed.value {
        return Ok(());
      }
    }
    r := Err(NotConfirmed);
  }

  /** Success means the VM no longer lists the function. */
  method VfioRemove(guest: GuestSocket, path: string) returns (r: Result<(), Error>)
    modifies guest
    ensures old(guest.vfioListings) <= guest.vfioListings && old(guest.vfioReplies) <= guest.vfioReplies
    ensures Confirms(guest.vfioListings[|old(guest.vfioListings)|..], guest.vfioReplies[|old(guest.vfioReplies)|..],
                     path, false, r)
    ensures r.Ok? ==> path !in guest.vfio
    ensures path !in old(guest.vfio) + old(guest.arriving) ==> guest.vfioReplies == old(guest.vfioReplies)
    ensures r == Err(NotConfirmed) ==> path in guest.vfio
    ensures old(guest.vfio) - old(guest.leaving) - {path} <= guest.vfio
  {
    ghost var listings := guest.vfioListings;
    var listed := guest.VfioListCommand();
    if listed.Err? {
      return Err(listed.error);
    }
    if path !in listed.value {
      return Ok(());
    }
    var accepted := guest.VfioRemoveCommand(path);
    if !accepted {
      return Err(CommandFailed);
    }
    for attempt := 0 to 6
      invariant guest.vfioReplies == old(guest.vfioReplies) + [true]
      invariant listings <= guest.vfioListings && |guest.vfioListings| == |listings| + 1 + attempt
      invariant forall i :: |listings| <= i < |guest.vfioListings| ==>
                              guest.vfioListings[i].Ok? && path in guest.vfioListings[i].value
      invariant old(guest.vfio) - old(guest.leaving) - {path} <= guest.vfio - guest.leaving
      invariant attempt > 0 ==> path in guest.vfio
    {
      listed := guest.VfioListCommand();
      if listed.Err? {
        return Err(listed.error);
      }
      if path !in listed.value {
        return Ok(());
      }
    }
    r := Err(NotConfirmed);
  }
}

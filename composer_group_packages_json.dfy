/**
 * The merge step of a Composer group repository: the handler that answers a
 * request for packages.json on a group by asking every member, keeping the
 * members that answered 200 with a payload, parsing each kept payload into a
 * name->url map and handing the union of the names to a document builder.
 *
 * The member fan-out, the packages.json parser and the document builder are
 * collaborators: the fan-out's result is a given sequence of responses, the
 * parser and the builder are function parameters.
 */
module ComposerGroupPackagesJson {

  /** HttpStatus.OK: the only status code whose response takes part in the merge. */
  const OK: int := 200

  datatype Option<+T> = None | Some(value: T)

  /** The body of a member's response, as the bytes it carried. */
  datatype Payload = Payload(content: seq<bv8>)

  /** One member's response: its status code and its payload (None stands for a null payload). */
  datatype Response = Response(status: int, payload: Option<Payload>)

  /** What parsePackagesJson gives back: the name->url map, or the IOException it threw (by its message). */
  datatype ParseResult = Parsed(part: map<string, string>) | IOError(message: string)

  /** The unchecked exceptions parseResponse can raise. */
  datatype Error =
    | NullPayload               // checkNotNull on a null payload: NullPointerException
    | UncheckedIO(cause: string) // an IOException from the parser, wrapped in UncheckedIOException

  datatype Result<+T> = Success(value: T) | Failure(error: Error)

  /**
   * What doGet ends in: the not-found response, an OK response built from the
   * merged name set, or an unchecked exception escaping to the caller.
   */
  datatype Outcome<+D> = NotFound | Ok(names: set<string>, document: D) | Fatal(error: Error)

  /** The filter's test: status code 200 and a non-null payload. */
  predicate IsSuccessful(r: Response) {
    r.status == OK && r.payload.Some?
  }

  /**
   * The filter over the members' responses: keeps the successful ones, in
   * their order, and drops every other one without raising anything.
   */
  function Successful(rs: seq<Response>): (kept: seq<Response>)
    ensures forall r :: r in kept <==> r in rs && IsSuccessful(r)
    ensures |kept| <= |rs|
  {
    if rs == [] then []
    else
      (if IsSuccessful(rs[0]) then [rs[0]] else []) + Successful(rs[1..])
  }

  /**
   * parseResponse: a null payload fails checkNotNull; otherwise the parser's
   * map is returned, and an IOException from the parser becomes an unchecked one.
   */
  function ParseResponse(parse: Payload -> ParseResult, r: Response): Result<map<string, string>>
  {
    match r.payload
    case None => Failure(NullPayload)
    case Some(p) =>
      match parse(p)
      case Parsed(part) => Success(part)
      case IOError(message) => Failure(UncheckedIO(message))
  }

  /**
   * For a response the filter kept, checkNotNull never fires: parseResponse
   * fails exactly when the parser throws, and then with that IOException.
   */
  lemma {:induction false} ParseResponseOfKept(parse: Payload -> ParseResult, r: Response)
    requires IsSuccessful(r)
    ensures ParseResponse(parse, r) != Failure(NullPayload)
    ensures ParseResponse(parse, r).Failure? <==> parse(r.payload.value).IOError?
    ensures ParseResponse(parse, r).Failure? ==> ParseResponse(parse, r).error == UncheckedIO(parse(r.payload.value).message)
    ensures ParseResponse(parse, r).Success? ==> ParseResponse(parse, r).value == parse(r.payload.value).part
  {
  }

  /**
   * The stream that maps parseResponse over the kept responses and collects
   * the maps: every response is parsed, in order, and the first exception
   * ends the whole collection.
   */
  function ParseAll(parse: Payload -> ParseResult, kept: seq<Response>): (res: Result<seq<map<string, string>>>)
    ensures res.Success? <==> forall i :: 0 <= i < |kept| ==> ParseResponse(parse, kept[i]).Success?
    ensures res.Success? ==>
      |res.value| == |kept| && forall i :: 0 <= i < |kept| ==> res.value[i] == ParseResponse(parse, kept[i]).value
    ensures res.Failure? ==>
      exists i :: 0 <= i < |kept| && ParseResponse(parse, kept[i]) == Failure(res.error) &&
        forall j :: 0 <= j < i ==> ParseResponse(parse, kept[j]).Success?
  {
    if kept == [] then Success([])
    else
      match ParseResponse(parse, kept[0])
      case Failure(e) => Failure(e)
      case Success(part) =>
        match ParseAll(parse, kept[1..])
        case Failure(e) =>
          assert forall i :: 1 <= i < |kept| ==> kept[i] == kept[1..][i - 1];
          Failure(e)
        case Success(parts) => Success([part] + parts)
  }

  /** The key sets of the parsed maps, united: a name is in it when some map has it as a key. */
  function NamesOf(parts: seq<map<string, string>>): (names: set<string>)
    ensures forall n :: n in names <==> exists i :: 0 <= i < |parts| && n in parts[i]
  {
    if parts == [] then {}
    else
      var last := |parts| - 1;
      assert forall i :: 0 <= i < last ==> parts[..last][i] == parts[i];
      NamesOf(parts[..last]) + parts[last].Keys
  }

  /**
   * doGet as a function of the members' responses: not-found when nothing is
   * kept, the first parse failure when a kept payload does not parse, and
   * otherwise OK with the united names and the document built from them.
   */
  function GroupOutcome<D>(rs: seq<Response>, parse: Payload -> ParseResult, build: set<string> -> D): Outcome<D>
  {
    var kept := Successful(rs);
    if kept == [] then NotFound
    else
      match ParseAll(parse, kept)
      case Failure(e) => Fatal(e)
      case Success(parts) => Ok(NamesOf(parts), build(NamesOf(parts)))
  }

  /**
   * The names an OK outcome must carry, stated over the responses alone: every
   * key of every map parsed from a successful response.
   */
  function MemberNames(rs: seq<Response>, parse: Payload -> ParseResult): set<string> {
    set r, n | r in rs && IsSuccessful(r) && parse(r.payload.value).Parsed? && n in parse(r.payload.value).part :: n
  }

  /**
   * The loop of doGet that adds each parsed map's key set to one name set.
   */
  method UnionKeys(parts: seq<map<string, string>>) returns (names: set<string>)
    ensures names == NamesOf(parts)
  {
    names := {};
    for i := 0 to |parts|
      invariant names == NamesOf(parts[..i])
    {
      assert parts[..i + 1][..i] == parts[..i];
      names := names + parts[i].Keys;
    }
    assert parts[..|parts|] == parts;
  }

  /**
   * doGet: filter, answer not-found when nothing is left, parse every kept
   * payload, unite their key sets and build the document from the names.
   */
  method DoGet<D>(responses: seq<Response>, parse: Payload -> ParseResult, build: set<string> -> D)
    returns (out: Outcome<D>)
    ensures out == GroupOutcome(responses, parse, build)
    ensures out.NotFound? <==> forall r :: r in responses ==> !IsSuccessful(r)
    ensures out.Fatal? <==>
      exists r :: r in responses && IsSuccessful(r) && parse(r.payload.value).IOError?
    ensures out.Ok? ==> out.names == MemberNames(responses, parse) && out.document == build(out.names)
  {
    var successfulResponses := Successful(responses);
    if successfulResponses == [] {
      out := NotFound;
    } else {
      var parsed := ParseAll(parse, successfulResponses);
      if parsed.Failure? {
        out := Fatal(parsed.error);
      } else {
        var names := UnionKeys(parsed.value);
        out := Ok(names, build(names));
      }
    }
    OutcomeCharacterized(responses, parse, build);
  }

  /**
   * Not-found exactly when no response is successful: zero members included,
   * and never an exception.
   */
  lemma {:induction false} NotFoundExactly<D>(rs: seq<Response>, parse: Payload -> ParseResult, build: set<string> -> D)
    ensures GroupOutcome(rs, parse, build).NotFound? <==> forall r :: r in rs ==> !IsSuccessful(r)
  {
    var kept := Successful(rs);
    if kept != [] {
      assert kept[0] in kept;
    }
  }

  /**
   * Fatal exactly when some successful payload fails to parse, whatever the
   * others do; the exception carries that payload's IOException.
   */
  lemma {:induction false} FatalExactly<D>(rs: seq<Response>, parse: Payload -> ParseResult, build: set<string> -> D)
    ensures GroupOutcome(rs, parse, build).Fatal? <==>
      exists r :: r in rs && IsSuccessful(r) && parse(r.payload.value).IOError?
    ensures GroupOutcome(rs, parse, build).Fatal? ==>
      exists r :: r in rs && IsSuccessful(r) && parse(r.payload.value).IOError? &&
        GroupOutcome(rs, parse, build).error == UncheckedIO(parse(r.payload.value).message)
  {
    var kept := Successful(rs);
    if kept != [] {
      match ParseAll(parse, kept)
      case Failure(e) =>
        var i :| 0 <= i < |kept| && ParseResponse(parse, kept[i]) == Failure(e);
        assert kept[i] in kept;
      case Success(parts) =>
        forall r | r in rs && IsSuccessful(r) ensures parse(r.payload.value).Parsed? {
          assert r in kept;
          var i :| 0 <= i < |kept| && kept[i] == r;
          assert ParseResponse(parse, kept[i]).Success?;
        }
    }
  }

  /** When all kept payloads parse, the united key sets are the keys of every successful payload. */
  lemma {:induction false} ParsedNames(rs: seq<Response>, parse: Payload -> ParseResult)
    requires ParseAll(parse, Successful(rs)).Success?
    ensures NamesOf(ParseAll(parse, Successful(rs)).value) == MemberNames(rs, parse)
  {
    var kept := Successful(rs);
    var parts := ParseAll(parse, kept).value;
    forall n | n in NamesOf(parts) ensures n in MemberNames(rs, parse) {
      var i :| 0 <= i < |parts| && n in parts[i];
      var r := kept[i];
      assert r in kept;
      assert ParseResponse(parse, r).Success? && parts[i] == ParseResponse(parse, r).value;
      assert parse(r.payload.value).Parsed? && n in parse(r.payload.value).part;
    }
    forall n | n in MemberNames(rs, parse) ensures n in NamesOf(parts) {
      var r :| r in rs && IsSuccessful(r) && parse(r.payload.value).Parsed? && n in parse(r.payload.value).part;
      assert r in kept;
      var i :| 0 <= i < |kept| && kept[i] == r;
      assert parts[i] == ParseResponse(parse, r).value;
      assert n in parts[i];
    }
  }

  /**
   * OK carries every key of every successful payload, the values thrown away,
   * and the document built from exactly those names.
   */
  lemma {:induction false} OkNames<D>(rs: seq<Response>, parse: Payload -> ParseResult, build: set<string> -> D)
    ensures GroupOutcome(rs, parse, build).Ok? ==>
      GroupOutcome(rs, parse, build).names == MemberNames(rs, parse) &&
      GroupOutcome(rs, parse, build).document == build(MemberNames(rs, parse))
  {
    if GroupOutcome(rs, parse, build).Ok? {
      ParsedNames(rs, parse);
    }
  }

  /** What doGet's outcome is, in terms of the responses alone. */
  lemma {:induction false} OutcomeCharacterized<D>(rs: seq<Response>, parse: Payload -> ParseResult, build: set<string> -> D)
    ensures GroupOutcome(rs, parse, build).NotFound? <==> forall r :: r in rs ==> !IsSuccessful(r)
    ensures GroupOutcome(rs, parse, build).Fatal? <==>
      exists r :: r in rs && IsSuccessful(r) && parse(r.payload.value).IOError?
    ensures GroupOutcome(rs, parse, build).Ok? ==>
      GroupOutcome(rs, parse, build).names == MemberNames(rs, parse) &&
      GroupOutcome(rs, parse, build).document == build(MemberNames(rs, parse))
  {
    NotFoundExactly(rs, parse, build);
    FatalExactly(rs, parse, build);
    OkNames(rs, parse, build);
  }

  /** The filter keeps every successful response as often as it occurs, and no other one. */
  lemma {:induction false} SuccessfulCounts(rs: seq<Response>)
    ensures forall r :: multiset(Successful(rs))[r] == if IsSuccessful(r) then multiset(rs)[r] else 0
  {
    if rs != [] {
      assert rs == [rs[0]] + rs[1..];
      SuccessfulCounts(rs[1..]);
    }
  }

  /** The filter keeps order: filtering a concatenation concatenates the filtered parts. */
  lemma {:induction false} SuccessfulConcat(a: seq<Response>, b: seq<Response>)
    ensures Successful(a + b) == Successful(a) + Successful(b)
  {
    if a == [] {
      assert a + b == b;
    } else {
      assert (a + b)[1..] == a[1..] + b;
      SuccessfulConcat(a[1..], b);
    }
  }

  /**
   * A response that is not 200-with-payload, wherever it stands, changes
   * nothing: not the outcome, not even which exception a fatal outcome carries.
   */
  lemma {:induction false} UnsuccessfulIgnored<D>(a: seq<Response>, r: Response, b: seq<Response>,
                               parse: Payload -> ParseResult, build: set<string> -> D)
    requires !IsSuccessful(r)
    ensures GroupOutcome(a + [r] + b, parse, build) == GroupOutcome(a + b, parse, build)
  {
    SuccessfulConcat(a, [r]);
    SuccessfulConcat(a + [r], b);
    SuccessfulConcat(a, b);
    assert Successful([r]) == [] by {
      assert [r][1..] == [];
    }
    assert Successful(a + [r] + b) == Successful(a + b);
  }

  /** Helper for ParserSeesOnlyKept: parsing agrees when the parser agrees on the payloads parsed. */
  lemma {:induction false} ParseAllAgree(kept: seq<Response>, parse1: Payload -> ParseResult, parse2: Payload -> ParseResult)
    requires forall r :: r in kept && r.payload.Some? ==> parse1(r.payload.value) == parse2(r.payload.value)
    ensures ParseAll(parse1, kept) == ParseAll(parse2, kept)
  {
    if kept != [] {
      var rest := kept[1..];
      assert forall r :: r in rest ==> r in kept;
      ParseAllAgree(rest, parse1, parse2);
      assert kept[0] in kept;
      assert ParseResponse(parse1, kept[0]) == ParseResponse(parse2, kept[0]);
    }
  }

  /**
   * Filtered-out responses never reach the parser: two parsers that agree on
   * the successful payloads give the same outcome, so a malformed body on a
   * failed member cannot make the call fatal.
   */
  lemma {:induction false} ParserSeesOnlyKept<D>(rs: seq<Response>, parse1: Payload -> ParseResult, parse2: Payload -> ParseResult,
                              build: set<string> -> D)
    requires forall r :: r in rs && IsSuccessful(r) ==> parse1(r.payload.value) == parse2(r.payload.value)
    ensures GroupOutcome(rs, parse1, build) == GroupOutcome(rs, parse2, build)
  {
    ParseAllAgree(Successful(rs), parse1, parse2);
  }

  /** Two parse results that agree on failure and, on success, on the key set. */
  predicate SameKeys(p: ParseResult, q: ParseResult) {
    match p
    case IOError(_) => q == p
    case Parsed(m) => q.Parsed? && q.part.Keys == m.Keys
  }

  /** Helper for ValuesDiscarded: parsing fails alike, and otherwise yields maps with the same keys. */
  lemma {:induction false} ParseAllSameKeys(kept: seq<Response>, parse1: Payload -> ParseResult, parse2: Payload -> ParseResult)
    requires forall r :: r in kept && r.payload.Some? ==> SameKeys(parse1(r.payload.value), parse2(r.payload.value))
    ensures ParseAll(parse1, kept).Failure? ==> ParseAll(parse2, kept) == ParseAll(parse1, kept)
    ensures ParseAll(parse1, kept).Success? ==>
      ParseAll(parse2, kept).Success? &&
      forall i :: 0 <= i < |kept| ==> ParseAll(parse1, kept).value[i].Keys == ParseAll(parse2, kept).value[i].Keys
  {
    if kept != [] {
      var rest := kept[1..];
      assert forall r :: r in rest ==> r in kept;
      ParseAllSameKeys(rest, parse1, parse2);
      assert kept[0] in kept;
      var head1, head2 := ParseResponse(parse1, kept[0]), ParseResponse(parse2, kept[0]);
      var tail1, tail2 := ParseAll(parse1, rest), ParseAll(parse2, rest);
      assert head1.Failure? ==> head2 == head1;
      assert head1.Success? ==> head2.Success? && head2.value.Keys == head1.value.Keys;
      if head1.Success? && tail1.Success? {
        var parts1, parts2 := [head1.value] + tail1.value, [head2.value] + tail2.value;
        assert ParseAll(parse1, kept) == Success(parts1);
        assert ParseAll(parse2, kept) == Success(parts2);
        forall i | 0 <= i < |kept| ensures parts1[i].Keys == parts2[i].Keys {
          if i > 0 {
            assert parts1[i] == tail1.value[i - 1] && parts2[i] == tail2.value[i - 1];
          }
        }
      }
    }
  }

  /**
   * Only keys count: members whose payloads parse to maps with the same keys,
   * whatever the values, give the same outcome.
   */
  lemma {:induction false} ValuesDiscarded<D>(rs: seq<Response>, parse1: Payload -> ParseResult, parse2: Payload -> ParseResult,
                           build: set<string> -> D)
    requires forall r :: r in rs && IsSuccessful(r) ==> SameKeys(parse1(r.payload.value), parse2(r.payload.value))
    ensures GroupOutcome(rs, parse1, build) == GroupOutcome(rs, parse2, build)
  {
    var kept := Successful(rs);
    ParseAllSameKeys(kept, parse1, parse2);
    if kept != [] && ParseAll(parse1, kept).Success? {
      NamesOfSameKeys(ParseAll(parse1, kept).value, ParseAll(parse2, kept).value);
    }
  }

  /** Helper for ValuesDiscarded: maps with pairwise equal key sets unite to the same names. */
  lemma {:induction false} NamesOfSameKeys(parts1: seq<map<string, string>>, parts2: seq<map<string, string>>)
    requires |parts1| == |parts2|
    requires forall i :: 0 <= i < |parts1| ==> parts1[i].Keys == parts2[i].Keys
    ensures NamesOf(parts1) == NamesOf(parts2)
  {
    forall n | n in NamesOf(parts1) ensures n in NamesOf(parts2) {
      var i :| 0 <= i < |parts1| && n in parts1[i];
      assert n in parts1[i].Keys;
      assert n in parts2[i];
    }
    forall n | n in NamesOf(parts2) ensures n in NamesOf(parts1) {
      var i :| 0 <= i < |parts2| && n in parts2[i];
      assert n in parts2[i].Keys;
      assert n in parts1[i];
    }
  }

  /**
   * The outcome does not depend on the order of the responses, nor on how often
   * one occurs: whether it is not-found, fatal or OK, and an OK outcome itself,
   * depend only on which responses there are.
   */
  lemma {:induction false} OrderIndependent<D>(rs1: seq<Response>, rs2: seq<Response>, parse: Payload -> ParseResult, build: set<string> -> D)
    requires forall r :: r in rs1 <==> r in rs2
    ensures GroupOutcome(rs1, parse, build).NotFound? <==> GroupOutcome(rs2, parse, build).NotFound?
    ensures GroupOutcome(rs1, parse, build).Fatal? <==> GroupOutcome(rs2, parse, build).Fatal?
    ensures GroupOutcome(rs1, parse, build).Ok? ==> GroupOutcome(rs1, parse, build) == GroupOutcome(rs2, parse, build)
  {
    OutcomeCharacterized(rs1, parse, build);
    OutcomeCharacterized(rs2, parse, build);
    assert MemberNames(rs1, parse) == MemberNames(rs2, parse);
  }

  /**
   * Set semantics: merging two groups of responses that each merge to OK gives
   * the union of their name sets, so a name several members list appears once.
   */
  lemma {:induction false} MergeOfConcatenation<D>(rs1: seq<Response>, rs2: seq<Response>, parse: Payload -> ParseResult, build: set<string> -> D)
    requires GroupOutcome(rs1, parse, build).Ok? && GroupOutcome(rs2, parse, build).Ok?
    ensures GroupOutcome(rs1 + rs2, parse, build).Ok?
    ensures GroupOutcome(rs1 + rs2, parse, build).names ==
      GroupOutcome(rs1, parse, build).names + GroupOutcome(rs2, parse, build).names
  {
    OutcomeCharacterized(rs1, parse, build);
    OutcomeCharacterized(rs2, parse, build);
    OutcomeCharacterized(rs1 + rs2, parse, build);
    var r :| r in rs1 && IsSuccessful(r);
    assert r in rs1 + rs2;
    MemberNamesConcat(rs1, rs2, parse);
  }

  /** The names over two groups of responses are the names over each, united. */
  lemma {:induction false} MemberNamesConcat(rs1: seq<Response>, rs2: seq<Response>, parse: Payload -> ParseResult)
    ensures MemberNames(rs1 + rs2, parse) == MemberNames(rs1, parse) + MemberNames(rs2, parse)
  {
    assert forall r :: r in rs1 + rs2 <==> r in rs1 || r in rs2;
  }

  /** A group whose one response is successful and parses lists exactly that response's keys. */
  lemma {:induction false} SingleMember<D>(r: Response, parse: Payload -> ParseResult, build: set<string> -> D)
    requires IsSuccessful(r) && parse(r.payload.value).Parsed?
    ensures GroupOutcome([r], parse, build) == Ok(parse(r.payload.value).part.Keys, build(parse(r.payload.value).part.Keys))
  {
    var m := parse(r.payload.value).part;
    assert [r][1..] == [];
    assert Successful([r]) == [r];
    assert ParseAll(parse, []) == Success([]);
    assert [m] + [] == [m];
    assert ParseAll(parse, [r]) == Success([m]);
    assert [m][..0] == [];
    assert NamesOf([m]) == m.Keys;
  }

  /**
   * One more member that lists only names already present, with whatever
   * values, leaves the outcome as it was.
   */
  lemma {:induction false} RepeatedNamesCollapse<D>(rs: seq<Response>, r: Response, parse: Payload -> ParseResult, build: set<string> -> D)
    requires GroupOutcome(rs, parse, build).Ok?
    requires IsSuccessful(r) && parse(r.payload.value).Parsed?
    requires parse(r.payload.value).part.Keys <= GroupOutcome(rs, parse, build).names
    ensures GroupOutcome(rs + [r], parse, build) == GroupOutcome(rs, parse, build)
  {
    var single := [r];
    SingleMember(r, parse, build);
    MergeOfConcatenation(rs, single, parse, build);
    var before, after := GroupOutcome(rs, parse, build), GroupOutcome(rs + single, parse, build);
    assert after.names == before.names;
    OkNames(rs, parse, build);
    OkNames(rs + single, parse, build);
    assert after.document == build(after.names) && before.document == build(before.names);
  }

  /**
   * The emptiness test looks at the kept responses, not at the union: when some
   * response is kept and every kept payload parses to an empty map, the outcome
   * is OK with no names, not not-found.
   */
  lemma {:induction false} AllEmptyIsOk<D>(rs: seq<Response>, parse: Payload -> ParseResult, build: set<string> -> D)
    requires exists r :: r in rs && IsSuccessful(r)
    requires forall r :: r in rs && IsSuccessful(r) ==> parse(r.payload.value) == Parsed(map[])
    ensures GroupOutcome(rs, parse, build) == Ok({}, build({}))
  {
    OutcomeCharacterized(rs, parse, build);
    assert MemberNames(rs, parse) == {};
  }
}

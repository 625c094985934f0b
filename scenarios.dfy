/**
 * Concrete group requests: three-member merges with a failed member, an
 * all-not-found group, a malformed successful payload, an all-empty group,
 * and a pair of malformed payloads whose order decides the reported cause.
 */
module Scenarios {
  import opened ComposerGroupPackagesJson

  const BodyA: Payload := Payload([0x61])
  const BodyB: Payload := Payload([0x62])
  const BodyC: Payload := Payload([0x63])

  /** A member that answered 200 with the given body. */
  function Answered(body: Payload): (r: Response)
    ensures IsSuccessful(r) && r.payload == Some(body)
  {
    Response(OK, Some(body))
  }

  /**
   * A lists foo and bar, B answers 500 with a body the parser would reject,
   * C lists bar and baz: the group lists foo, bar and baz once each.
   */
  lemma {:induction false} UnionSkipsFailedMember<D>(parse: Payload -> ParseResult, build: set<string> -> D)
    requires parse(BodyA) == Parsed(map["foo" := "a/foo", "bar" := "a/bar"])
    requires parse(BodyB).IOError?
    requires parse(BodyC) == Parsed(map["bar" := "c/bar", "baz" := "c/baz"])
    ensures GroupOutcome([Answered(BodyA), Response(500, Some(BodyB)), Answered(BodyC)], parse, build)
         == Ok({"foo", "bar", "baz"}, build({"foo", "bar", "baz"}))
  {
    var rs := [Answered(BodyA), Response(500, Some(BodyB)), Answered(BodyC)];
    var mA, mC := parse(BodyA).part, parse(BodyC).part;
    assert Successful(rs) == [Answered(BodyA), Answered(BodyC)] by {
      assert rs[1..] == [Response(500, Some(BodyB)), Answered(BodyC)];
      assert rs[1..][1..] == [Answered(BodyC)];
      assert Successful([Answered(BodyC)]) == [Answered(BodyC)] + Successful([]);
    }
    var kept := [Answered(BodyA), Answered(BodyC)];
    assert ParseAll(parse, kept) == Success([mA, mC]) by {
      assert ParseResponse(parse, Answered(BodyA)) == Success(mA);
      assert ParseResponse(parse, Answered(BodyC)) == Success(mC);
      assert kept[1..] == [Answered(BodyC)];
      assert [Answered(BodyC)][1..] == [];
      assert ParseAll(parse, []) == Success([]);
      assert [mC] + [] == [mC];
      assert ParseAll(parse, [Answered(BodyC)]) == Success([mC]);
      assert [mA] + [mC] == [mA, mC];
    }
    assert NamesOf([mA, mC]) == {"foo", "bar", "baz"} by {
      assert [mA, mC][..1] == [mA];
      assert NamesOf([mA]) == mA.Keys by { assert [mA][..0] == []; }
    }
  }

  /** Two members answering 404: not-found, and nothing is thrown. */
  lemma {:induction false} AllNotFound<D>(parse: Payload -> ParseResult, build: set<string> -> D)
    ensures GroupOutcome([Response(404, None), Response(404, Some(BodyA))], parse, build) == NotFound
  {
    var rs := [Response(404, None), Response(404, Some(BodyA))];
    NotFoundExactly(rs, parse, build);
  }

  /** A answers 200 with a malformed body, B lists foo: the call fails, there is no partial result. */
  lemma {:induction false} MalformedMemberIsFatal<D>(parse: Payload -> ParseResult, build: set<string> -> D)
    requires parse(BodyA) == IOError("unexpected end of input")
    requires parse(BodyB) == Parsed(map["foo" := "b/foo"])
    ensures GroupOutcome([Answered(BodyA), Answered(BodyB)], parse, build)
         == Fatal(UncheckedIO("unexpected end of input"))
  {
  }

  /** Both members answer 200 with an empty listing: OK with no names, not not-found. */
  lemma {:induction false} EmptyListingsAreOk<D>(parse: Payload -> ParseResult, build: set<string> -> D)
    requires parse(BodyA) == Parsed(map[])
    requires parse(BodyB) == Parsed(map[])
    ensures GroupOutcome([Answered(BodyA), Answered(BodyB)], parse, build) == Ok({}, build({}))
  {
    var rs := [Answered(BodyA), Answered(BodyB)];
    assert Answered(BodyA) in rs;
    AllEmptyIsOk(rs, parse, build);
  }

  /**
   * With two malformed successful payloads the call is fatal either way, but
   * the exception it carries is the one of whichever comes first.
   */
  lemma {:induction false} FatalCauseFollowsOrder<D>(parse: Payload -> ParseResult, build: set<string> -> D)
    requires parse(BodyA) == IOError("bad A")
    requires parse(BodyB) == IOError("bad B")
    ensures GroupOutcome([Answered(BodyA), Answered(BodyB)], parse, build) == Fatal(UncheckedIO("bad A"))
    ensures GroupOutcome([Answered(BodyB), Answered(BodyA)], parse, build) == Fatal(UncheckedIO("bad B"))
  {
  }
}

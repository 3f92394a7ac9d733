/** Texts joined with commas. */
module CommaJoin {
  import opened Basics

  /** string.Join with a comma. */
  function Join(ps: seq<string>): string {
    if ps == [] then "" else if |ps| == 1 then ps[0] else ps[0] + ("," + Join(ps[1..]))
  }

  /** Growing the last piece grows the joined text. */
  lemma {:induction false} JoinGrow(ps: seq<string>, x: string, y: string)
    ensures Join(ps + [x + y]) == Join(ps + [x]) + y
  {
    if ps == [] {
      assert ps + [x + y] == [x + y] && ps + [x] == [x];
    } else {
      JoinGrow(ps[1..], x, y);
      assert (ps + [x + y])[1..] == ps[1..] + [x + y] && (ps + [x])[1..] == ps[1..] + [x];
      Regroup(ps[0], ",", Join(ps[1..] + [x]), y);
    }
  }

  lemma {:induction false} JoinMore(ps: seq<string>, x: string)
    ensures Join(ps + [x] + [""]) == Join(ps + [x]) + ","
  {
    if ps == [] {
      assert ps + [x] + [""] == [x, ""] && ps + [x] == [x];
      assert [x, ""][1..] == [""];
    } else {
      JoinMore(ps[1..], x);
      assert (ps + [x] + [""])[1..] == ps[1..] + [x] + [""] && (ps + [x])[1..] == ps[1..] + [x];
      Regroup(ps[0], ",", Join(ps[1..] + [x]), ",");
    }
  }
}

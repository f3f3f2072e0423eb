/** Lines that no parser looks at: blank lines and comments, and in a nodelist
    lines of fewer than seven fields (internal/parser/pointlist.go:346-356,
    internal/parser/pointlist_combined.go:28-36, 118-126,
    internal/parser/pointlist_formats.go:36-43, internal/parser/parser.go:330-375). */
module Comments {
  import opened Text
  import opened PointLines
  import opened Folds
  import opened Detection
  import BossFamily
  import Combined
  import Fakenet
  import Nodelist

  // Nothing but white space, or a semicolon first.
  predicate IsComment(raw: string) {
    Trim(raw) == "" || Trim(raw)[0] == ';'
  }

  const COMMENT := (raw: string) => IsComment(raw)

  // In a nodelist short lines are passed over too, but not the end mark.
  const PASSED_OVER := (raw: string) =>
    '\U{001A}' !in raw && (IsComment(raw) || |Split(Trim(raw), ',')| < 7)

  function Without(lines: seq<string>, p: string -> bool): seq<string> {
    if lines == [] then []
    else (if p(lines[0]) then [] else [lines[0]]) + Without(lines[1..], p)
  }

  lemma {:induction false} DropsStutters<S(!new)>(f: (S, string) -> S, st: S, lines: seq<string>, p: string -> bool)
    requires forall s: S, l: string :: p(l) ==> f(s, l) == s
    ensures Fold(f, st, lines) == Fold(f, st, Without(lines, p))
    decreases |lines|
  {
    if lines != [] {
      var next, rest := f(st, lines[0]), Without(lines[1..], p);
      DropsStutters(f, next, lines[1..], p);
      if !p(lines[0]) {
        assert ([lines[0]] + rest)[1..] == rest;
      } else {
        assert [] + rest == rest;
      }
    }
  }

  lemma CommentsRead(raw: string)
    ensures COMMENT(raw) ==> ReadLine(raw) == Nothing
  {}

  // The pointlist parsers and the detection read a file as if its blank lines and
  // comments were not there.
  lemma CommentsDoNotMatter(lines: seq<string>, defaultZone: int)
    ensures var kept := Without(lines, COMMENT);
      && BossFamily.Run(defaultZone, lines) == BossFamily.Run(defaultZone, kept)
      && Combined.Run(defaultZone, lines) == Combined.Run(defaultZone, kept)
      && Fakenet.Run(defaultZone, lines) == Fakenet.Run(defaultZone, kept)
      && Detect(lines) == Detect(kept)
  {
    hide ReadLine, Fold, COMMENT;
    forall raw { CommentsRead(raw); }
    DropsStutters(BossFamily.Stepper(defaultZone), BossFamily.INIT, lines, COMMENT);
    DropsStutters(Combined.Stepper(), Combined.Init(defaultZone), lines, COMMENT);
    DropsStutters(Fakenet.Stepper(), Fakenet.Init(defaultZone), lines, COMMENT);
    DropsStutters(Counter(), NO_COUNTS, lines, COMMENT);
  }

  lemma ShortLineStays(collectPoints: bool, st: Nodelist.State, raw: string)
    requires PASSED_OVER(raw)
    ensures Nodelist.Step(collectPoints, st, raw) == st
  {}

  // So does the nodelist parser, and it passes over short lines.
  lemma ShortLinesDoNotMatter(collectPoints: bool, defaultZone: int, lines: seq<string>)
    ensures Nodelist.Run(collectPoints, defaultZone, lines)
         == Nodelist.Run(collectPoints, defaultZone, Without(lines, PASSED_OVER))
  {
    hide Nodelist.Step, Fold, PASSED_OVER;
    forall st: Nodelist.State, raw: string | PASSED_OVER(raw)
      ensures Nodelist.Step(collectPoints, st, raw) == st
    {
      ShortLineStays(collectPoints, st, raw);
    }
    DropsStutters(Nodelist.Stepper(collectPoints), Nodelist.Init(defaultZone), lines, PASSED_OVER);
  }
}

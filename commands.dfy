/** The `!` commands: dispatch by prefix, the dice argument and its roll,
    the fact-check verdict colour and source list, the edit-or-send choice,
    and the `!remind` arguments and the reminder they create. */
module Commands {
  import opened Wrappers
  import Text
  import Reminders

  datatype Command = Help | Ask | Flip | Roll | Remind | Factcheck

  /** The prefix that selects each command. `!ask` and `!factcheck` need
      the trailing space. */
  function Prefix(c: Command): string {
    match c
    case Help => "!help"
    case Ask => "!ask "
    case Flip => "!flip"
    case Roll => "!roll"
    case Remind => "!remind"
    case Factcheck => "!factcheck "
  }

  /** The position of each command in the order the prefixes are tried. */
  function Rank(c: Command): nat {
    match c
    case Help => 0
    case Ask => 1
    case Flip => 2
    case Roll => 3
    case Remind => 4
    case Factcheck => 5
  }

  /** `handleCommand`: the first command, in the fixed order, whose prefix
      starts the message; at most one handler runs, and none when no prefix
      matches. */
  function Dispatch(content: string): (r: Option<Command>)
    ensures r.Some? ==> Text.HasPrefix(content, Prefix(r.value))
    ensures r.Some? ==> forall c :: Rank(c) < Rank(r.value) ==> !Text.HasPrefix(content, Prefix(c))
    ensures r.None? ==> forall c :: !Text.HasPrefix(content, Prefix(c))
  {
    if Text.HasPrefix(content, "!help") then Some(Help)
    else if Text.HasPrefix(content, "!ask ") then Some(Ask)
    else if Text.HasPrefix(content, "!flip") then Some(Flip)
    else if Text.HasPrefix(content, "!roll") then Some(Roll)
    else if Text.HasPrefix(content, "!remind") then Some(Remind)
    else if Text.HasPrefix(content, "!factcheck ") then Some(Factcheck)
    else None
  }

  /** A text does not start with a pattern it differs from at some index. */
  lemma DiffersAt(s: string, p: string, k: nat)
    requires k < |s| && k < |p| && s[k] != p[k]
    ensures !Text.HasPrefix(s, p)
  {
    if |p| <= |s| {
      assert s[..|p|][k] == s[k];
    }
  }

  /** Without their trailing space, `!ask` and `!factcheck` run nothing;
      `!reminder` still runs the reminder command. */
  lemma DispatchExamples()
    ensures Dispatch("!ask") == None && Dispatch("!factcheck") == None
    ensures Dispatch("!reminder x") == Some(Remind)
  {
    DiffersAt("!factcheck", "!flip", 2);
    DiffersAt("!reminder x", "!help", 1);
    DiffersAt("!reminder x", "!ask ", 1);
    DiffersAt("!reminder x", "!flip", 1);
    DiffersAt("!reminder x", "!roll", 2);
    assert "!reminder x"[..7] == "!remind";
  }

  // ---------------------------------------------------------------- dice

  /** How many dice of how many sides to roll. */
  datatype Dice = Dice(count: int, sides: int)

  /** The dice argument of `handleDiceRoll`, accepting a count only in
      `least..10` and a side number only in `least..100`. The argument is the
      message with `!roll ` trimmed; the default is one six-sided die. An
      argument containing `d` is read as `XdY` when it splits into exactly
      two pieces, each piece taken only when it is a number in range; any
      other argument is taken as the side number when it is one. */
  function ParseDiceFrom(content: string, least: int): (d: Dice)
    ensures least <= d.count <= 10 || d.count == 1
    ensures least <= d.sides <= 100 || d.sides == 6
  {
    var arg := Text.TrimPrefix(content, "!roll ");
    if |arg| == 0 then Dice(1, 6)
    else if Text.Contains(arg, "d") then
      var parts := Text.Split(arg, 'd');
      if |parts| == 2 then
        var c := Text.Atoi(parts[0]);
        var s := Text.Atoi(parts[1]);
        Dice(if c.Some? && least <= c.value <= 10 then c.value else 1,
             if s.Some? && least <= s.value <= 100 then s.value else 6)
      else Dice(1, 6)
    else
      var s := Text.Atoi(arg);
      if s.Some? && least <= s.value <= 100 then Dice(1, s.value) else Dice(1, 6)
  }

  /** The dice argument as the code has it: upper bounds only. Every integer
      Atoi returns is at least MinInt64, so that lower bound excludes
      nothing. */
  function ParseDiceAsWritten(content: string): (d: Dice)
    ensures d.count <= 10 && d.sides <= 100
  {
    ParseDiceFrom(content, Text.MinInt64)
  }

  /** The dice argument with the lower bound the roll needs: a count in
      1..10 and a side number in 1..100, so the dice can always be rolled. */
  function ParseDice(content: string): (d: Dice)
    ensures 1 <= d.count <= 10 && 1 <= d.sides <= 100
    ensures Rollable(d)
  {
    ParseDiceFrom(content, 1)
  }

  /** `rand.IntN(sides)` is only defined for a positive bound, and it is
      called once per die. */
  predicate Rollable(d: Dice) {
    d.count >= 1 ==> d.sides >= 1
  }

  /** `!roll 0` asks, as written, for one die with no sides: the first draw
      would be `rand.IntN(0)`, which panics. */
  lemma ZeroSidedDie()
    ensures ParseDiceAsWritten("!roll 0") == Dice(1, 0)
    ensures !Rollable(ParseDiceAsWritten("!roll 0"))
  {
    var zero := Text.Itoa(0);
    assert zero == "0";
    assert "!roll 0" == "!roll " + zero;
    ItoaWithoutD(0);
    Text.AtoiItoa(0);
    SidesArg(zero, Text.MinInt64);
  }

  /** So does `!roll 1d0`. */
  lemma OneZeroSidedDie()
    ensures ParseDiceAsWritten("!roll 1d0") == Dice(1, 0)
  {
    var one, zero := Text.Itoa(1), Text.Itoa(0);
    assert one == "1" && zero == "0";
    assert "!roll 1d0" == "!roll " + one + "d" + zero;
    ItoaWithoutD(1);
    ItoaWithoutD(0);
    Text.AtoiItoa(1);
    Text.AtoiItoa(0);
    DiceArg(one, zero, Text.MinInt64);
  }

  lemma ItoaWithoutD(n: int)
    ensures 'd' !in Text.Itoa(n)
  {
    var s := Text.Itoa(n);
    if n < 0 {
      assert s == "-" + Text.ShowNat(-n);
      assert Text.AllDigits(s[1..]);
    } else {
      assert Text.AllDigits(s);
    }
  }

  lemma TrimRoll(arg: string)
    ensures Text.TrimPrefix("!roll " + arg, "!roll ") == arg
  {
    assert ("!roll " + arg)[..6] == "!roll ";
    assert ("!roll " + arg)[6..] == arg;
  }

  /** An argument with exactly one `d` contains it and splits around it. */
  lemma SplitDice(a: string, b: string)
    requires 'd' !in a && 'd' !in b
    ensures Text.Contains(a + "d" + b, "d")
    ensures Text.Split(a + "d" + b, 'd') == [a, b]
  {
    assert (a + "d" + b)[|a|..|a| + 1] == "d";
    Text.ContainsAt(a + "d" + b, "d", |a|);
    assert a + "d" + b == a + ['d'] + b;
    Text.SplitAtFirst(a, b, 'd');
    Text.SplitNone(b, 'd');
  }

  /** `XdY` with both numbers in range reads back as X dice of Y sides. */
  lemma DiceRoundTrip(count: int, sides: int)
    requires 1 <= count <= 10 && 1 <= sides <= 100
    ensures ParseDice("!roll " + Text.Itoa(count) + "d" + Text.Itoa(sides)) == Dice(count, sides)
  {
    ItoaWithoutD(count);
    ItoaWithoutD(sides);
    Text.AtoiItoa(count);
    Text.AtoiItoa(sides);
    DiceArg(Text.Itoa(count), Text.Itoa(sides), 1);
  }

  /** A bare number in range is the side number of a single die. */
  lemma SidesRoundTrip(sides: int)
    requires 1 <= sides <= 100
    ensures ParseDice("!roll " + Text.Itoa(sides)) == Dice(1, sides)
  {
    ItoaWithoutD(sides);
    Text.AtoiItoa(sides);
    SidesArg(Text.Itoa(sides), 1);
  }

  /** An argument `AdB` with exactly one `d`: each piece is taken when Atoi
      reads it as a number from `least` up to its cap; a piece Atoi rejects,
      or one out of range, leaves the count at 1 or the side number at 6. */
  lemma DiceArg(a: string, b: string, least: int)
    requires 'd' !in a && 'd' !in b
    ensures var d := ParseDiceFrom("!roll " + a + "d" + b, least);
            && (Text.Atoi(a).Some? && least <= Text.Atoi(a).value <= 10 ==> d.count == Text.Atoi(a).value)
            && (Text.Atoi(a).None? || !(least <= Text.Atoi(a).value <= 10) ==> d.count == 1)
            && (Text.Atoi(b).Some? && least <= Text.Atoi(b).value <= 100 ==> d.sides == Text.Atoi(b).value)
            && (Text.Atoi(b).None? || !(least <= Text.Atoi(b).value <= 100) ==> d.sides == 6)
  {
    assert "!roll " + a + "d" + b == "!roll " + (a + "d" + b);
    TrimRoll(a + "d" + b);
    SplitDice(a, b);
  }

  /** An argument without `d` is the side number of one die when Atoi reads
      it as a number from `least` up to 100, and one six-sided die otherwise. */
  lemma SidesArg(a: string, least: int)
    requires 'd' !in a
    ensures var d := ParseDiceFrom("!roll " + a, least);
            && d.count == 1
            && (Text.Atoi(a).Some? && least <= Text.Atoi(a).value <= 100 ==> d.sides == Text.Atoi(a).value)
            && (Text.Atoi(a).None? || !(least <= Text.Atoi(a).value <= 100) ==> d.sides == 6)
  {
    TrimRoll(a);
    Text.ContainsChar(a, 'd');
  }

  /** An argument with more than one `d` is one six-sided die. */
  lemma ManyDs(arg: string, least: int)
    requires Text.Count(arg, 'd') >= 2
    ensures ParseDiceFrom("!roll " + arg, least) == Dice(1, 6)
  {
    TrimRoll(arg);
    Text.CountIn(arg, 'd');
    Text.ContainsChar(arg, 'd');
  }

  /** With no argument, or no space after the command, the roll is one
      six-sided die. */
  lemma NoArg(least: int)
    ensures ParseDiceFrom("!roll", least) == Dice(1, 6)
    ensures ParseDiceFrom("!roll ", least) == Dice(1, 6)
  {
    assert !Text.HasPrefix("!roll", "!roll ");
    Text.ContainsChar("!roll", 'd');
    assert !Text.IsDigit("!roll"[0]);
    assert Text.TrimPrefix("!roll ", "!roll ") == "";
  }

  /** As written, every count up to 10 and every side number up to 100 in
      the int64 range, zero and negatives included, is taken as given. */
  lemma AsWrittenDiceRoundTrip(count: int, sides: int)
    requires Text.MinInt64 <= count <= 10 && Text.MinInt64 <= sides <= 100
    ensures ParseDiceAsWritten("!roll " + Text.Itoa(count) + "d" + Text.Itoa(sides)) == Dice(count, sides)
  {
    ItoaWithoutD(count);
    ItoaWithoutD(sides);
    Text.AtoiItoa(count);
    Text.AtoiItoa(sides);
    DiceArg(Text.Itoa(count), Text.Itoa(sides), Text.MinInt64);
  }

  /** As written, a bare side number up to 100, zero and negatives included,
      gives one die with that many sides. */
  lemma AsWrittenSidesRoundTrip(sides: int)
    requires Text.MinInt64 <= sides <= 100
    ensures ParseDiceAsWritten("!roll " + Text.Itoa(sides)) == Dice(1, sides)
  {
    ItoaWithoutD(sides);
    Text.AtoiItoa(sides);
    SidesArg(Text.Itoa(sides), Text.MinInt64);
  }

  /** `0d0` is, as written, zero dice of zero sides. */
  lemma NoDiceNoSides()
    ensures ParseDiceAsWritten("!roll 0d0") == Dice(0, 0)
  {
    var z := Text.Itoa(0);
    assert z == "0";
    assert "!roll 0d0" == "!roll " + z + "d" + z;
    AsWrittenDiceRoundTrip(0, 0);
  }

  /** `d20` keeps the count of one and takes twenty sides. */
  lemma TwentySided()
    ensures ParseDiceAsWritten("!roll d20") == Dice(1, 20)
    ensures ParseDice("!roll d20") == Dice(1, 20)
  {
    var b := Text.Itoa(20);
    assert "!roll d20" == "!roll " + "" + "d" + b;
    ItoaWithoutD(20);
    Text.AtoiItoa(20);
    DiceArg("", b, Text.MinInt64);
    DiceArg("", b, 1);
  }

  /** `1d2d3` falls back to one six-sided die. */
  lemma TwoDs()
    ensures ParseDiceAsWritten("!roll 1d2d3") == Dice(1, 6)
  {
    assert "!roll 1d2d3" == "!roll " + "1d2d3";
    assert Text.Count("1d2d3", 'd') == 2;
    ManyDs("1d2d3", Text.MinInt64);
  }

  /** The sum of the rolls, in the order they were made. */
  function Sum(rolls: seq<int>): int
    decreases |rolls|
  {
    if |rolls| == 0 then 0 else Sum(rolls[..|rolls| - 1]) + rolls[|rolls| - 1]
  }

  /** n rolls of a die with `sides` sides total between n and n * sides. */
  lemma {:induction false} SumBounds(rolls: seq<int>, sides: int)
    requires forall i :: 0 <= i < |rolls| ==> 1 <= rolls[i] <= sides
    ensures |rolls| <= Sum(rolls) <= |rolls| * sides
    decreases |rolls|
  {
    if |rolls| > 0 {
      SumBounds(rolls[..|rolls| - 1], sides);
    }
  }

  /** The roll loop of `handleDiceRoll`. `draws[i]` is what `rand.IntN`
      returned for the i-th die, a number in 0..sides-1. Each roll is its
      draw plus one, so it lies in 1..sides; there is one roll per die and
      the total is their sum. */
  method RollDice(d: Dice, draws: seq<int>) returns (rolls: seq<int>, total: int)
    requires Rollable(d)
    requires |draws| >= d.count
    requires forall i :: 0 <= i < |draws| ==> 0 <= draws[i] < d.sides
    ensures |rolls| == if d.count < 0 then 0 else d.count
    ensures forall i :: 0 <= i < |rolls| ==> rolls[i] == draws[i] + 1 && 1 <= rolls[i] <= d.sides
    ensures total == Sum(rolls)
  {
    rolls := [];
    total := 0;
    var i := 0;
    while i < d.count
      invariant 0 <= i <= (if d.count < 0 then 0 else d.count)
      invariant |rolls| == i
      invariant forall j :: 0 <= j < i ==> rolls[j] == draws[j] + 1 && 1 <= rolls[j] <= d.sides
      invariant total == Sum(rolls)
    {
      var roll := draws[i] + 1;
      rolls := rolls + [roll];
      assert rolls[..|rolls| - 1] == rolls[..i];
      total := total + roll;
      i := i + 1;
    }
  }

  // ---------------------------------------------------------- fact check

  const Green: int := 0x27ae60
  const Red: int := 0xe74c3c
  const Orange: int := 0xf39c12
  const Gray: int := 0x95a5a6

  /** The embed colour for the model's fact-check answer, looked up in its
      lower-cased text: a true verdict wins over a false one, which wins over
      "partially true"; anything else is gray. */
  function VerdictColor(content: string): (c: int)
    ensures c in {Green, Red, Orange, Gray}
    ensures c == Green <==> Text.Contains(Text.Lower(content), "verdict: true")
    ensures c == Red <==> !Text.Contains(Text.Lower(content), "verdict: true")
                          && Text.Contains(Text.Lower(content), "verdict: false")
    ensures c == Gray <==> !Text.Contains(Text.Lower(content), "verdict: true")
                           && !Text.Contains(Text.Lower(content), "verdict: false")
                           && !Text.Contains(Text.Lower(content), "partially true")
  {
    var lower := Text.Lower(content);
    if Text.Contains(lower, "verdict: true") then Green
    else if Text.Contains(lower, "verdict: false") then Red
    else if Text.Contains(lower, "partially true") then Orange
    else Gray
  }

  /** The match ignores case: any spelling of the marker that lower-cases
      to `marker`, anywhere in the answer, is found. */
  lemma {:induction false} LowerFinds(a: string, m: string, b: string, marker: string)
    requires Text.Lower(m) == marker
    ensures Text.Contains(Text.Lower(a + m + b), marker)
  {
    var s := a + m + b;
    var lower := Text.Lower(s);
    assert |m| == |marker|;
    forall k | 0 <= k < |m| ensures lower[|a| + k] == marker[k] {
      assert s[|a| + k] == m[k];
      assert marker[k] == Text.Lower(m)[k];
    }
    assert lower[|a|..|a| + |marker|] == marker;
    Text.ContainsAt(lower, marker, |a|);
  }

  /** An answer stating "VERDICT: True" in any capitalisation is green. */
  lemma TrueVerdictIsGreen(a: string, m: string, b: string)
    requires Text.Lower(m) == "verdict: true"
    ensures VerdictColor(a + m + b) == Green
  {
    LowerFinds(a, m, b, "verdict: true");
  }

  /** An answer stating "VERDICT: False" in any capitalisation, and no true
      verdict, is red. */
  lemma FalseVerdictIsRed(a: string, m: string, b: string)
    requires Text.Lower(m) == "verdict: false"
    requires !Text.Contains(Text.Lower(a + m + b), "verdict: true")
    ensures VerdictColor(a + m + b) == Red
  {
    LowerFinds(a, m, b, "verdict: false");
  }

  datatype SearchResult = SearchResult(title: string, url: string, description: string)

  /** The line that lists one source: a bullet, its title as a link to its
      URL, and a line break. */
  function SourceLine(r: SearchResult): string {
    "• [" + r.title + "](" + r.url + ")\n"
  }

  /** The lines of the given sources, in order. */
  function SourceLines(rs: seq<SearchResult>): string
    decreases |rs|
  {
    if |rs| == 0 then "" else SourceLines(rs[..|rs| - 1]) + SourceLine(rs[|rs| - 1])
  }

  lemma {:induction false} CountAppend(a: string, b: string, c: char)
    ensures Text.Count(a + b, c) == Text.Count(a, c) + Text.Count(b, c)
    decreases |a|
  {
    if |a| > 0 {
      CountAppend(a[1..], b, c);
      assert (a + b)[1..] == a[1..] + b;
    } else {
      assert a + b == b;
    }
  }

  /** A source's line holds exactly one line break when its title and URL
      hold none. */
  lemma CountSourceLine(r: SearchResult)
    requires '\n' !in r.title && '\n' !in r.url
    ensures Text.Count(SourceLine(r), '\n') == 1
  {
    CountNone(r.title, '\n');
    CountNone(r.url, '\n');
    CountAppend("• [", r.title, '\n');
    CountAppend("• [" + r.title, "](", '\n');
    CountAppend("• [" + r.title + "](", r.url, '\n');
    CountAppend("• [" + r.title + "](" + r.url, ")\n", '\n');
    assert Text.Count("• [", '\n') == 0;
    assert Text.Count("](", '\n') == 0;
    assert Text.Count(")\n", '\n') == 1;
  }

  /** When titles and URLs hold no line break, the list has exactly one line
      per source it lists. */
  lemma {:induction false} OneLinePerSource(rs: seq<SearchResult>)
    requires forall i :: 0 <= i < |rs| ==> '\n' !in rs[i].title && '\n' !in rs[i].url
    ensures Text.Count(SourceLines(rs), '\n') == |rs|
    decreases |rs|
  {
    if |rs| > 0 {
      var r := rs[|rs| - 1];
      OneLinePerSource(rs[..|rs| - 1]);
      CountAppend(SourceLines(rs[..|rs| - 1]), SourceLine(r), '\n');
      CountSourceLine(r);
    }
  }

  lemma {:induction false} CountNone(s: string, c: char)
    requires c !in s
    ensures Text.Count(s, c) == 0
    decreases |s|
  {
    if |s| > 0 {
      assert forall x :: x in s[1..] ==> x in s;
      CountNone(s[1..], c);
    }
  }

  /** The source list of `handleFactcheck`: the first three search results at
      most, in the order the search returned them. */
  method SourceList(results: seq<SearchResult>) returns (sources: string)
    ensures sources == SourceLines(results[..if |results| < 3 then |results| else 3])
  {
    sources := "";
    var i := 0;
    while i < |results|
      invariant 0 <= i <= |results| && i <= 3
      invariant sources == SourceLines(results[..i])
    {
      if i >= 3 {
        break;
      }
      sources := sources + SourceLine(results[i]);
      assert results[..i + 1][..i] == results[..i];
      i := i + 1;
    }
  }

  // ------------------------------------------------------ edit or send

  /** An embed, reduced to what the bot sets and reads back. */
  datatype Embed = Embed(title: string, description: string, color: int)

  /** A message the bot posted earlier and may now edit. */
  datatype Posted = Posted(channelId: string, id: string)

  /** The one platform call `maybeEditMessage` makes. */
  datatype Effect =
    | EditEmbed(channelId: string, messageId: string, embed: Embed)
    | EditText(channelId: string, messageId: string, content: string)
    | SendEmbed(channelId: string, embed: Embed)
    | SendText(channelId: string, content: string)

  /** `maybeEditMessage`: edit the placeholder when there is one (with the
      embed when one is given, else with the text), otherwise post in the
      channel (the embed when one is given, else the text). An edit targets
      the placeholder's own channel and ID. */
  function MaybeEdit(channelId: string, placeholder: Option<Posted>, content: string, embed: Option<Embed>): (e: Effect)
    ensures e.EditEmbed? <==> placeholder.Some? && embed.Some?
    ensures e.EditText? <==> placeholder.Some? && embed.None?
    ensures e.SendEmbed? <==> placeholder.None? && embed.Some?
    ensures e.SendText? <==> placeholder.None? && embed.None?
    ensures (e.EditEmbed? || e.EditText?) ==>
              e.channelId == placeholder.value.channelId && e.messageId == placeholder.value.id
    ensures (e.SendEmbed? || e.SendText?) ==> e.channelId == channelId
    ensures (e.EditEmbed? || e.SendEmbed?) ==> e.embed == embed.value
    ensures (e.EditText? || e.SendText?) ==> e.content == content
  {
    match placeholder
    case Some(m) =>
      if embed.Some? then EditEmbed(m.channelId, m.id, embed.value) else EditText(m.channelId, m.id, content)
    case None =>
      if embed.Some? then SendEmbed(channelId, embed.value) else SendText(channelId, content)
  }

  // ---------------------------------------------------------------- remind

  /** One minute, in nanoseconds (the unit of Go's time.Duration). */
  const MinuteNanos: int := 60 * 1_000_000_000

  datatype RemindRequest = RemindRequest(delay: int, text: string)

  datatype RemindError = Usage | BadDuration

  /** The arguments of `!remind`, split on single spaces: fewer than three
      fields is a usage error; the second field must parse as a duration
      (`parseDuration` stands for time.ParseDuration and returns
      nanoseconds) of at least one minute; the text is the remaining fields
      joined by single spaces. */
  function ParseRemind(content: string, parseDuration: string -> Option<int>): (r: Result<RemindRequest, RemindError>)
    ensures |Text.Split(content, ' ')| < 3 <==> r == Failure(Usage)
    ensures r == Failure(BadDuration) <==>
              |Text.Split(content, ' ')| >= 3 &&
              (parseDuration(Text.Split(content, ' ')[1]).None? || parseDuration(Text.Split(content, ' ')[1]).value < MinuteNanos)
    ensures r.Success? ==> && parseDuration(Text.Split(content, ' ')[1]) == Some(r.value.delay)
                           && r.value.delay >= MinuteNanos
                           && r.value.text == Text.Join(Text.Split(content, ' ')[2..], ' ')
  {
    var args := Text.Split(content, ' ');
    if |args| < 3 then Failure(Usage)
    else
      match parseDuration(args[1])
      case None => Failure(BadDuration)
      case Some(d) => if d < MinuteNanos then Failure(BadDuration) else Success(RemindRequest(d, Text.Join(args[2..], ' ')))
  }

  /** `!remind WHEN TEXT` with a one-word duration of at least a minute
      yields that duration and exactly TEXT, spaces and all. */
  lemma RemindRoundTrip(command: string, when: string, text: string, parseDuration: string -> Option<int>, d: int)
    requires ' ' !in command && ' ' !in when
    requires parseDuration(when) == Some(d) && d >= MinuteNanos
    ensures ParseRemind(command + " " + when + " " + text, parseDuration) == Success(RemindRequest(d, text))
  {
    RemindFields(command, when, text);
    var args := Text.Split(command + " " + when + " " + text, ' ');
    assert args[1] == when;
    assert args[2..] == Text.Split(text, ' ');
    Text.JoinSplit(text, ' ');
  }

  /** The fields of `!remind WHEN TEXT`: the command, the duration, then the
      pieces of TEXT. */
  lemma RemindFields(command: string, when: string, text: string)
    requires ' ' !in command && ' ' !in when
    ensures Text.Split(command + " " + when + " " + text, ' ') == [command, when] + Text.Split(text, ' ')
  {
    var content := command + " " + when + " " + text;
    assert content == command + [' '] + (when + [' '] + text);
    Text.SplitAtFirst(command, when + [' '] + text, ' ');
    Text.SplitAtFirst(when, text, ' ');
  }

  /** The reminder `handleRemind` appends, as written: its ID is never set,
      so every reminder gets the empty ID. */
  function NewReminderAsWritten(req: RemindRequest, channelId: string, userId: string, nowNanos: int): Reminders.Reminder {
    Reminders.Reminder("", channelId, userId, req.text, (nowNanos + req.delay) / 1_000_000_000)
  }

  /** Two reminders created as written share the empty ID, so a removal of
      the second one by its ID (which a timer armed at boot would make)
      removes the first one instead. */
  lemma AsWrittenIdsCollide(a: RemindRequest, b: RemindRequest, channelId: string, userId: string, t1: int, t2: int)
    ensures var r1 := NewReminderAsWritten(a, channelId, userId, t1);
            var r2 := NewReminderAsWritten(b, channelId, userId, t2);
            r1.id == r2.id && Reminders.RemoveFirst([r1, r2], r2.id) == [r2]
  {
  }

  /** The reminder `handleRemind` should append: the ID issued for the
      current counter, the caller's channel and user, the text, and the Unix
      second at which the delay elapses, at least a minute after `now`. */
  function NewReminder(req: RemindRequest, channelId: string, userId: string, nowNanos: int, counter: int): (r: Reminders.Reminder)
    requires req.delay >= MinuteNanos
    ensures r.id == Reminders.IdFor(counter)
    ensures r.channelId == channelId && r.userId == userId && r.message == req.text
    ensures r.time * 1_000_000_000 <= nowNanos + req.delay < (r.time + 1) * 1_000_000_000
    ensures r.time >= nowNanos / 1_000_000_000 + 60
  {
    Reminders.Reminder(Reminders.IdFor(counter), channelId, userId, req.text, (nowNanos + req.delay) / 1_000_000_000)
  }
}

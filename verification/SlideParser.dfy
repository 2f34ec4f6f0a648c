/**
 The event-driven reader of background slideshow files, and a direct reading of the document tree
 it is proved to agree with.
 */
module SlideParser {
  import opened Basics

  // ---------- what the markup parser delivers ----------

  datatype Name =
    | Background | StartTime | Static | Transition | Size | File | From | To | Duration
    | Year | Month | Day | Hour | Minute | Second
    | OtherName(name: string)

  /** Character data, with what strtol and g_strtod make of it. */
  datatype Text = Text(chars: string, asInt: int, asReal: real)

  /** An attribute, with what atoi makes of its value. */
  datatype Attr = Width(value: int) | Height(value: int) | OtherAttr

  datatype Event = Start(name: Name, attrs: seq<Attr>) | End | Chars(text: Text)

  // ---------- what is read ----------

  datatype FileSize = FileSize(width: int, height: int, file: Option<string>)

  datatype Slide = Slide(duration: real, fixed: bool, file1: seq<FileSize>, file2: seq<FileSize>)

  datatype Tm = Tm(year: int, mon: int, mday: int, hour: int, min: int, sec: int)

  /** safe turns false where the program would follow a null pointer. */
  datatype Show = Show(slides: seq<Slide>, stack: seq<Name>, total: real, startTm: Tm, multi: bool, safe: bool)

  const G_MAXUINT := 4294967295.0

  /** localtime (0), in the time zone of the process. */
  function Fresh(epoch: Tm): Show {
    Show([], [], 0.0, epoch, false, true)
  }

  /** g_ascii_isspace: the blank, tab, line feed, form feed and carriage return. */
  predicate IsSpace(c: char) {
    c == ' ' || c == '\t' || c == '\n' || c == '\r' || c == '\U{000C}'
  }

  predicate AllSpace(s: string) {
    forall i :: 0 <= i < |s| ==> IsSpace(s[i])
  }

  // ---------- the handlers as functions ----------

  function SizeOf(attrs: seq<Attr>): FileSize {
    if attrs == [] then FileSize(0, 0, None) else
    var s := SizeOf(attrs[..|attrs| - 1]);
    match attrs[|attrs| - 1]
    case Width(v) => s.(width := v)
    case Height(v) => s.(height := v)
    case OtherAttr => s
  }

  function WithLast(p: Show, s: Slide): Show
    requires p.slides != []
  {
    p.(slides := p.slides[..|p.slides| - 1] + [s])
  }

  function Last(p: Show): Slide
    requires p.slides != []
  {
    p.slides[|p.slides| - 1]
  }

  function Pushed(p: Show, name: Name): Show {
    p.(stack := p.stack + [name])
  }

  function AfterStart(p: Show, name: Name, attrs: seq<Attr>): Show {
    if name.Static? || name.Transition? then
      Pushed(p.(slides := p.slides + [Slide(0.0, name.Static?, [], [])]), name)
    else if name.Size? then
      if p.slides == [] then p.(safe := false)
      else if p.stack == [] then Pushed(p, name)
      else
        var top := p.stack[|p.stack| - 1];
        var s := Last(p);
        if top.File? || top.From? then Pushed(WithLast(p, s.(file1 := [SizeOf(attrs)] + s.file1)), name)
        else if top.To? then Pushed(WithLast(p, s.(file2 := [SizeOf(attrs)] + s.file2)), name)
        else Pushed(p, name)
    else Pushed(p, name)
  }

  function AfterEnd(p: Show): Show {
    if p.stack == [] then p else p.(stack := p.stack[..|p.stack| - 1])
  }

  /** What the chain of stack_is tests distinguishes. */
  datatype Place =
    | AtTime(field: Name) | AtDuration
    | AtFirst | AtFirstSize | AtSecond | AtSecondSize | Elsewhere

  predicate TimeField(n: Name) {
    n.Year? || n.Month? || n.Day? || n.Hour? || n.Minute? || n.Second?
  }

  function PlaceOf(stack: seq<Name>): Place {
    if |stack| < 3 || |stack| > 4 || !stack[0].Background? then Elsewhere
    else if |stack| == 3 then
      if stack[1].StartTime? && TimeField(stack[2]) then AtTime(stack[2])
      else if (stack[1].Static? || stack[1].Transition?) && stack[2].Duration? then AtDuration
      else if (stack[1].Static? && stack[2].File?) || (stack[1].Transition? && stack[2].From?) then AtFirst
      else if stack[1].Transition? && stack[2].To? then AtSecond
      else Elsewhere
    else if !stack[3].Size? then Elsewhere
    else if (stack[1].Static? && stack[2].File?) || (stack[1].Transition? && stack[2].From?) then AtFirstSize
    else if stack[1].Transition? && stack[2].To? then AtSecondSize
    else Elsewhere
  }

  /** The offsets the program applies: the hour is one too early as well as the month. */
  function SetTime(tm: Tm, field: Name, v: int): Tm {
    match field
    case Year => tm.(year := v - 1900)
    case Month => tm.(mon := v - 1)
    case Day => tm.(mday := v)
    case Hour => tm.(hour := v - 1)
    case Minute => tm.(min := v)
    case Second => tm.(sec := v)
    case _ => tm
  }

  function Named(f: FileSize, t: Text): FileSize {
    f.(file := Some(t.chars))
  }

  function AfterText(p: Show, t: Text): Show {
    match PlaceOf(p.stack)
    case Elsewhere => p
    case AtTime(field) => p.(startTm := SetTime(p.startTm, field, t.asInt))
    case AtDuration =>
      if p.slides == [] then p
      else WithLast(p, Last(p).(duration := t.asReal)).(total := p.total + t.asReal)
    case AtFirst =>
      if p.slides == [] || AllSpace(t.chars) then p
      else
        var files := [FileSize(-1, -1, Some(t.chars))] + Last(p).file1;
        WithLast(p, Last(p).(file1 := files)).(multi := p.multi || |files| > 1)
    case AtSecond =>
      if p.slides == [] || AllSpace(t.chars) then p
      else
        var files := [FileSize(-1, -1, Some(t.chars))] + Last(p).file2;
        WithLast(p, Last(p).(file2 := files)).(multi := p.multi || |files| > 1)
    case AtFirstSize =>
      if p.slides == [] then p
      else if Last(p).file1 == [] then p.(safe := false)
      else
        var files := [Named(Last(p).file1[0], t)] + Last(p).file1[1..];
        WithLast(p, Last(p).(file1 := files)).(multi := p.multi || |files| > 1)
    case AtSecondSize =>
      if p.slides == [] then p
      else if Last(p).file2 == [] then p.(safe := false)
      else
        var files := [Named(Last(p).file2[0], t)] + Last(p).file2[1..];
        WithLast(p, Last(p).(file2 := files)).(multi := p.multi || |files| > 1)
  }

  function Handle(p: Show, e: Event): Show {
    match e
    case Start(name, attrs) => AfterStart(p, name, attrs)
    case End => AfterEnd(p)
    case Chars(t) => AfterText(p, t)
  }

  function Fold(p: Show, es: seq<Event>): Show {
    if es == [] then p else Handle(Fold(p, es[..|es| - 1]), es[|es| - 1])
  }

  /** The end of read_slideshow_file: no slides, no slideshow; one slide lasts forever. */
  function Finished(p: Show): Option<Show> {
    if p.slides == [] then None
    else if |p.slides| == 1 then Some(p.(slides := [p.slides[0].(duration := G_MAXUINT)], total := G_MAXUINT))
    else Some(p)
  }

  // ---------- documents ----------

  /** gap is the character data before an element or before the end of its parent. */
  datatype SizeNode = SizeNode(gap: string, attrs: seq<Attr>, text: Text)
  datatype FileNode = Direct(text: Text) | Sizes(sizes: seq<SizeNode>, gap: string)
  datatype Part =
    | DurationPart(gap: string, text: Text)
    | FirstPart(gap: string, files: FileNode)    // file, or from
    | SecondPart(gap: string, files: FileNode)   // to
  datatype TimeNode = TimeNode(gap: string, field: Name, text: Text)
  datatype Item =
    | TimeItem(gap: string, fields: seq<TimeNode>, endGap: string)
    | SlideItem(gap: string, fixed: bool, parts: seq<Part>, endGap: string)
  datatype Document = Document(items: seq<Item>, endGap: string)

  predicate SizesOk(ns: seq<SizeNode>) {
    ns == [] || (SizesOk(ns[..|ns| - 1]) && AllSpace(ns[|ns| - 1].gap))
  }

  predicate FileNodeOk(f: FileNode) {
    f.Sizes? ==> AllSpace(f.gap) && SizesOk(f.sizes)
  }

  predicate PartOk(q: Part, fixed: bool) {
    AllSpace(q.gap) && (!q.DurationPart? ==> FileNodeOk(q.files)) && (fixed ==> !q.SecondPart?)
  }

  predicate PartsOk(qs: seq<Part>, fixed: bool) {
    qs == [] || (PartsOk(qs[..|qs| - 1], fixed) && PartOk(qs[|qs| - 1], fixed))
  }

  predicate TimesOk(ns: seq<TimeNode>) {
    ns == [] || (TimesOk(ns[..|ns| - 1]) && TimeField(ns[|ns| - 1].field) && AllSpace(ns[|ns| - 1].gap))
  }

  predicate ItemOk(i: Item) {
    && AllSpace(i.gap) && AllSpace(i.endGap)
    && match i
       case TimeItem(_, fields, _) => TimesOk(fields)
       case SlideItem(_, fixed, parts, _) => PartsOk(parts, fixed)
  }

  predicate ItemsOk(items: seq<Item>) {
    items == [] || (ItemsOk(items[..|items| - 1]) && ItemOk(items[|items| - 1]))
  }

  /** The document follows the schema: background over starttime, static and transition elements. */
  predicate Conforming(d: Document) {
    AllSpace(d.endGap) && ItemsOk(d.items)
  }

  function Gap(g: string): seq<Event> {
    if g == "" then [] else [Chars(Text(g, 0, 0.0))]
  }

  function SizeEvents(n: SizeNode): seq<Event> {
    Gap(n.gap) + [Start(Size, n.attrs), Chars(n.text), End]
  }

  function SizesEvents(ns: seq<SizeNode>): seq<Event> {
    if ns == [] then [] else SizesEvents(ns[..|ns| - 1]) + SizeEvents(ns[|ns| - 1])
  }

  function FileEvents(f: FileNode): seq<Event> {
    match f
    case Direct(t) => [Chars(t)]
    case Sizes(ns, g) => SizesEvents(ns) + Gap(g)
  }

  function PartName(q: Part, fixed: bool): Name {
    match q
    case DurationPart(_, _) => Duration
    case FirstPart(_, _) => if fixed then File else From
    case SecondPart(_, _) => To
  }

  function PartBody(q: Part): seq<Event> {
    match q
    case DurationPart(_, t) => [Chars(t)]
    case FirstPart(_, f) => FileEvents(f)
    case SecondPart(_, f) => FileEvents(f)
  }

  function PartEvents(q: Part, fixed: bool): seq<Event> {
    Gap(q.gap) + ([Start(PartName(q, fixed), [])] + PartBody(q) + [End])
  }

  function PartsEvents(qs: seq<Part>, fixed: bool): seq<Event> {
    if qs == [] then [] else PartsEvents(qs[..|qs| - 1], fixed) + PartEvents(qs[|qs| - 1], fixed)
  }

  function TimeEvents(n: TimeNode): seq<Event> {
    Gap(n.gap) + [Start(n.field, []), Chars(n.text), End]
  }

  function TimesEvents(ns: seq<TimeNode>): seq<Event> {
    if ns == [] then [] else TimesEvents(ns[..|ns| - 1]) + TimeEvents(ns[|ns| - 1])
  }

  function ItemEvents(i: Item): seq<Event> {
    match i
    case TimeItem(g, fields, e) => Gap(g) + ([Start(StartTime, [])] + TimesEvents(fields) + Gap(e) + [End])
    case SlideItem(g, fixed, parts, e) =>
      Gap(g) + ([Start(if fixed then Static else Transition, [])] + PartsEvents(parts, fixed) + Gap(e) + [End])
  }

  function ItemsEvents(items: seq<Item>): seq<Event> {
    if items == [] then [] else ItemsEvents(items[..|items| - 1]) + ItemEvents(items[|items| - 1])
  }

  function Events(d: Document): seq<Event> {
    [Start(Background, [])] + ItemsEvents(d.items) + Gap(d.endGap) + [End]
  }

  // ---------- the direct reading ----------

  /** The value of the last width attribute, or 0. */
  function WidthOf(attrs: seq<Attr>): int {
    if attrs == [] then 0
    else if attrs[|attrs| - 1].Width? then attrs[|attrs| - 1].value
    else WidthOf(attrs[..|attrs| - 1])
  }

  /** The value of the last height attribute, or 0. */
  function HeightOf(attrs: seq<Attr>): int {
    if attrs == [] then 0
    else if attrs[|attrs| - 1].Height? then attrs[|attrs| - 1].value
    else HeightOf(attrs[..|attrs| - 1])
  }

  lemma {:induction false} SizeIs(attrs: seq<Attr>)
    ensures SizeOf(attrs) == FileSize(WidthOf(attrs), HeightOf(attrs), None)
  {
    if attrs != [] {
      SizeIs(attrs[..|attrs| - 1]);
    }
  }

  /** The attributes that come after the i-th are of the other kinds. */
  predicate LastWidth(attrs: seq<Attr>, i: nat) {
    i < |attrs| && attrs[i].Width? && forall j :: i < j < |attrs| ==> !attrs[j].Width?
  }

  predicate LastHeight(attrs: seq<Attr>, i: nat) {
    i < |attrs| && attrs[i].Height? && forall j :: i < j < |attrs| ==> !attrs[j].Height?
  }

  lemma {:induction false} WidthMeans(attrs: seq<Attr>, i: nat)
    ensures LastWidth(attrs, i) ==> WidthOf(attrs) == attrs[i].value
    ensures (forall j :: 0 <= j < |attrs| ==> !attrs[j].Width?) ==> WidthOf(attrs) == 0
  {
    if attrs != [] {
      WidthMeans(attrs[..|attrs| - 1], i);
    }
  }

  lemma {:induction false} HeightMeans(attrs: seq<Attr>, i: nat)
    ensures LastHeight(attrs, i) ==> HeightOf(attrs) == attrs[i].value
    ensures (forall j :: 0 <= j < |attrs| ==> !attrs[j].Height?) ==> HeightOf(attrs) == 0
  {
    if attrs != [] {
      HeightMeans(attrs[..|attrs| - 1], i);
    }
  }

  /** The last width attribute gives the width and the last height attribute the height, 0 without one. */
  lemma SizeMeans(attrs: seq<Attr>, i: nat)
    ensures LastWidth(attrs, i) ==> SizeOf(attrs).width == attrs[i].value
    ensures LastHeight(attrs, i) ==> SizeOf(attrs).height == attrs[i].value
    ensures (forall j :: 0 <= j < |attrs| ==> !attrs[j].Width?) ==> SizeOf(attrs).width == 0
    ensures (forall j :: 0 <= j < |attrs| ==> !attrs[j].Height?) ==> SizeOf(attrs).height == 0
    ensures SizeOf(attrs).file.None?
  {
    SizeIs(attrs);
    WidthMeans(attrs, i);
    HeightMeans(attrs, i);
  }

  /** Files are listed last first. */
  function ReadSizes(ns: seq<SizeNode>): seq<FileSize> {
    if ns == [] then [] else
    var n := ns[|ns| - 1];
    [FileSize(WidthOf(n.attrs), HeightOf(n.attrs), Some(n.text.chars))] + ReadSizes(ns[..|ns| - 1])
  }

  function ReadFiles(f: FileNode): seq<FileSize> {
    match f
    case Direct(t) => if AllSpace(t.chars) then [] else [FileSize(-1, -1, Some(t.chars))]
    case Sizes(ns, _) => ReadSizes(ns)
  }

  function ReadPart(s: Slide, q: Part): Slide {
    match q
    case DurationPart(_, t) => s.(duration := t.asReal)
    case FirstPart(_, f) => s.(file1 := ReadFiles(f) + s.file1)
    case SecondPart(_, f) => s.(file2 := ReadFiles(f) + s.file2)
  }

  function ReadParts(s: Slide, qs: seq<Part>): Slide {
    if qs == [] then s else ReadPart(ReadParts(s, qs[..|qs| - 1]), qs[|qs| - 1])
  }

  function ReadSlide(fixed: bool, parts: seq<Part>): Slide {
    ReadParts(Slide(0.0, fixed, [], []), parts)
  }

  function ReadSlides(items: seq<Item>): seq<Slide> {
    if items == [] then [] else
    var most := ReadSlides(items[..|items| - 1]);
    match items[|items| - 1]
    case TimeItem(_, _, _) => most
    case SlideItem(_, fixed, parts, _) => most + [ReadSlide(fixed, parts)]
  }

  function PartSeconds(q: Part): real {
    if q.DurationPart? then q.text.asReal else 0.0
  }

  /** The running total after the durations among qs. */
  function PartsSeconds(total: real, qs: seq<Part>): real {
    if qs == [] then total else PartsSeconds(total, qs[..|qs| - 1]) + PartSeconds(qs[|qs| - 1])
  }

  function ItemsSeconds(items: seq<Item>): real {
    if items == [] then 0.0 else
    var most := ItemsSeconds(items[..|items| - 1]);
    if items[|items| - 1].SlideItem? then PartsSeconds(most, items[|items| - 1].parts) else most
  }

  /** What the last element with this name says, or otherwise. */
  function Said(ns: seq<TimeNode>, field: Name, otherwise: int): int {
    if ns == [] then otherwise
    else if ns[|ns| - 1].field == field then ns[|ns| - 1].text.asInt
    else Said(ns[..|ns| - 1], field, otherwise)
  }

  lemma {:induction false} SaidMeans(ns: seq<TimeNode>, field: Name, otherwise: int, i: nat)
    ensures i < |ns| && ns[i].field == field && (forall j :: i < j < |ns| ==> ns[j].field != field) ==>
              Said(ns, field, otherwise) == ns[i].text.asInt
    ensures (forall j :: 0 <= j < |ns| ==> ns[j].field != field) ==> Said(ns, field, otherwise) == otherwise
  {
    if ns != [] {
      SaidMeans(ns[..|ns| - 1], field, otherwise, i);
    }
  }

  /** The start time as the program has it: years since 1900, months from 0, and the hour one too early. */
  function ReadTimes(tm: Tm, ns: seq<TimeNode>): Tm {
    Tm(Said(ns, Year, tm.year + 1900) - 1900, Said(ns, Month, tm.mon + 1) - 1, Said(ns, Day, tm.mday),
       Said(ns, Hour, tm.hour + 1) - 1, Said(ns, Minute, tm.min), Said(ns, Second, tm.sec))
  }

  /** Setting one field after the other gives each what was last said of it. */
  lemma OneTimeMore(tm: Tm, ns: seq<TimeNode>)
    requires ns != [] && TimeField(ns[|ns| - 1].field)
    ensures ReadTimes(tm, ns) == SetTime(ReadTimes(tm, ns[..|ns| - 1]), ns[|ns| - 1].field, ns[|ns| - 1].text.asInt)
  {
  }

  function ReadStart(tm: Tm, items: seq<Item>): Tm {
    if items == [] then tm else
    var most := ReadStart(tm, items[..|items| - 1]);
    if items[|items| - 1].TimeItem? then ReadTimes(most, items[|items| - 1].fields) else most
  }

  predicate Several(s: Slide) {
    |s.file1| > 1 || |s.file2| > 1
  }

  predicate AnySeveral(slides: seq<Slide>) {
    slides != [] && (Several(slides[|slides| - 1]) || AnySeveral(slides[..|slides| - 1]))
  }

  lemma {:induction false} AnySeveralMeans(slides: seq<Slide>)
    ensures AnySeveral(slides) <==> exists k :: 0 <= k < |slides| && Several(slides[k])
  {
    if slides != [] {
      var most := slides[..|slides| - 1];
      AnySeveralMeans(most);
      if k :| 0 <= k < |most| && Several(most[k]) {
        assert Several(slides[k]);
      }
    }
  }

  // ---------- folding over the events of a tree ----------

  lemma Assoc<T>(a: seq<T>, b: seq<T>, c: seq<T>)
    ensures a + (b + c) == a + b + c
  {
  }

  lemma OneStep(p: Show, before: seq<Event>, q: Show, e: Event)
    requires Fold(p, before) == q
    ensures Fold(p, before + [e]) == Handle(q, e)
  {
    assert (before + [e])[..|before|] == before;
  }

  lemma LastApart<T>(b: seq<T>)
    requires b != []
    ensures b == b[..|b| - 1] + [b[|b| - 1]]
  {
  }

  lemma {:induction false} FoldConcat(p: Show, a: seq<Event>, b: seq<Event>)
    ensures Fold(p, a + b) == Fold(Fold(p, a), b)
  {
    if b == [] {
      assert a + b == a;
    } else {
      var most, e := b[..|b| - 1], b[|b| - 1];
      FoldConcat(p, a, most);
      LastApart(b);
      Assoc(a, most, [e]);
      OneStep(p, a + most, Fold(p, a + most), e);
      OneStep(Fold(p, a), most, Fold(Fold(p, a), most), e);
    }
  }

  /** before followed by gap and by an element. */
  lemma ElementAfter(before: seq<Event>, gap: seq<Event>, open: Event, inside: seq<Event>, last: seq<Event>,
                     close: Event)
    ensures before + (gap + ([open] + inside + last + [close])) == before + gap + [open] + inside + last + [close]
  {
    Assoc(before, gap, [open] + inside + last + [close]);
    Assoc(before + gap, [open] + inside + last, [close]);
    Assoc(before + gap, [open] + inside, last);
    Assoc(before + gap, [open], inside);
  }

  lemma FoldOne(p: Show, e: Event)
    ensures Fold(p, [e]) == Handle(p, e)
  {
    assert [e][..0] == [];
    assert Fold(p, []) == p;
  }

  lemma FoldThree(p: Show, a: Event, b: Event, c: Event)
    ensures Fold(p, [a, b, c]) == Handle(Handle(Handle(p, a), b), c)
  {
    assert [a, b, c] == [a] + [b] + [c];
    FoldConcat(p, [a] + [b], [c]);
    FoldConcat(p, [a], [b]);
    FoldOne(p, a);
    FoldOne(Handle(p, a), b);
    FoldOne(Handle(Handle(p, a), b), c);
  }

  /** An element: its start, what is inside, its end. */
  lemma FoldElement(p: Show, name: Name, inside: seq<Event>)
    ensures Fold(p, [Start(name, [])] + inside + [End]) == AfterEnd(Fold(AfterStart(p, name, []), inside))
  {
    FoldConcat(p, [Start(name, [])] + inside, [End]);
    FoldConcat(p, [Start(name, [])], inside);
    FoldOne(p, Start(name, []));
    FoldOne(Fold(AfterStart(p, name, []), inside), End);
  }

  /** White space between elements changes nothing. */
  lemma GapKeeps(p: Show, g: string)
    requires AllSpace(g)
    requires PlaceOf(p.stack).Elsewhere? || PlaceOf(p.stack).AtFirst? || PlaceOf(p.stack).AtSecond?
    ensures Fold(p, Gap(g)) == p
  {
    if g != "" {
      FoldOne(p, Chars(Text(g, 0, 0.0)));
    }
  }

  lemma PopPushed(p: Show, name: Name)
    ensures AfterEnd(Pushed(p, name)) == p
  {
    assert (p.stack + [name])[..|p.stack|] == p.stack;
  }

  // inside a file, from or to element

  /** The state while cur is read, done being the slides before it. */
  function At(done: seq<Slide>, cur: Slide, stack: seq<Name>, total: real, tm: Tm): Show {
    Show(done + [cur], stack, total, tm, AnySeveral(done) || Several(cur), true)
  }

  predicate InFirst(stack: seq<Name>) {
    PlaceOf(stack) == AtFirst
  }

  predicate InSecond(stack: seq<Name>) {
    PlaceOf(stack) == AtSecond
  }

  function AddFile(cur: Slide, second: bool, f: FileSize): Slide {
    if second then cur.(file2 := [f] + cur.file2) else cur.(file1 := [f] + cur.file1)
  }

  lemma LastOf(done: seq<Slide>, cur: Slide, stack: seq<Name>, total: real, tm: Tm, s: Slide)
    ensures var p := At(done, cur, stack, total, tm);
            Last(p) == cur && WithLast(p, s).slides == done + [s]
  {
    assert (done + [cur])[..|done|] == done;
  }

  lemma SizeStart(done: seq<Slide>, cur: Slide, stack: seq<Name>, total: real, tm: Tm, second: bool, attrs: seq<Attr>)
    requires if second then InSecond(stack) else InFirst(stack)
    ensures var p := At(done, cur, stack, total, tm);
            AfterStart(p, Size, attrs) ==
              Pushed(p, Size).(slides := done + [AddFile(cur, second, SizeOf(attrs))])
  {
    LastOf(done, cur, stack, total, tm, AddFile(cur, second, SizeOf(attrs)));
  }

  lemma SizeText(done: seq<Slide>, cur: Slide, stack: seq<Name>, total: real, tm: Tm, second: bool, f: FileSize,
                 t: Text)
    requires if second then InSecond(stack) else InFirst(stack)
    ensures var p := At(done, cur, stack, total, tm);
            var q := Pushed(p, Size).(slides := done + [AddFile(cur, second, f)]);
            AfterText(q, t) == Pushed(At(done, AddFile(cur, second, Named(f, t)), stack, total, tm), Size)
  {
    var c := AddFile(cur, second, f);
    assert (stack + [Size])[..3] == stack;
    assert PlaceOf(stack + [Size]) == if second then AtSecondSize else AtFirstSize;
    assert (done + [c])[..|done|] == done;
    assert second ==> c.file2[1..] == cur.file2;
    assert !second ==> c.file1[1..] == cur.file1;
  }

  lemma SizeFold(done: seq<Slide>, cur: Slide, stack: seq<Name>, total: real, tm: Tm, second: bool, n: SizeNode)
    requires (if second then InSecond(stack) else InFirst(stack)) && AllSpace(n.gap)
    ensures Fold(At(done, cur, stack, total, tm), SizeEvents(n))
         == At(done, AddFile(cur, second, Named(SizeOf(n.attrs), n.text)), stack, total, tm)
  {
    var p := At(done, cur, stack, total, tm);
    FoldConcat(p, Gap(n.gap), [Start(Size, n.attrs), Chars(n.text), End]);
    GapKeeps(p, n.gap);
    FoldThree(p, Start(Size, n.attrs), Chars(n.text), End);
    SizeStart(done, cur, stack, total, tm, second, n.attrs);
    SizeText(done, cur, stack, total, tm, second, SizeOf(n.attrs), n.text);
    PopPushed(At(done, AddFile(cur, second, Named(SizeOf(n.attrs), n.text)), stack, total, tm), Size);
  }

  function AddFiles(cur: Slide, second: bool, fs: seq<FileSize>): Slide {
    if second then cur.(file2 := fs + cur.file2) else cur.(file1 := fs + cur.file1)
  }

  lemma AddOneMore(cur: Slide, second: bool, fs: seq<FileSize>, f: FileSize)
    ensures AddFile(AddFiles(cur, second, fs), second, f) == AddFiles(cur, second, [f] + fs)
  {
    assert [f] + (fs + cur.file1) == [f] + fs + cur.file1;
    assert [f] + (fs + cur.file2) == [f] + fs + cur.file2;
  }

  lemma AddNone(cur: Slide, second: bool)
    ensures AddFiles(cur, second, []) == cur
  {
    assert [] + cur.file1 == cur.file1 && [] + cur.file2 == cur.file2;
  }

  lemma {:induction false} SizesFold(done: seq<Slide>, cur: Slide, stack: seq<Name>, total: real, tm: Tm,
                                     second: bool, ns: seq<SizeNode>)
    requires if second then InSecond(stack) else InFirst(stack)
    requires SizesOk(ns)
    ensures Fold(At(done, cur, stack, total, tm), SizesEvents(ns))
         == At(done, AddFiles(cur, second, ReadSizes(ns)), stack, total, tm)
  {
    if ns == [] {
      AddNone(cur, second);
    } else {
      var most, n := ns[..|ns| - 1], ns[|ns| - 1];
      SizesFold(done, cur, stack, total, tm, second, most);
      FoldConcat(At(done, cur, stack, total, tm), SizesEvents(most), SizeEvents(n));
      SizeFold(done, AddFiles(cur, second, ReadSizes(most)), stack, total, tm, second, n);
      SizeIs(n.attrs);
      AddOneMore(cur, second, ReadSizes(most), Named(SizeOf(n.attrs), n.text));
    }
  }

  lemma DirectFold(done: seq<Slide>, cur: Slide, stack: seq<Name>, total: real, tm: Tm, second: bool, t: Text)
    requires if second then InSecond(stack) else InFirst(stack)
    ensures Fold(At(done, cur, stack, total, tm), [Chars(t)])
         == At(done, AddFiles(cur, second, ReadFiles(Direct(t))), stack, total, tm)
  {
    var p := At(done, cur, stack, total, tm);
    FoldOne(p, Chars(t));
    var cur1 := AddFiles(cur, second, ReadFiles(Direct(t)));
    LastOf(done, cur, stack, total, tm, cur1);
    AddNone(cur, second);
  }

  lemma FilesFold(done: seq<Slide>, cur: Slide, stack: seq<Name>, total: real, tm: Tm, second: bool, f: FileNode)
    requires (if second then InSecond(stack) else InFirst(stack)) && FileNodeOk(f)
    ensures Fold(At(done, cur, stack, total, tm), FileEvents(f))
         == At(done, AddFiles(cur, second, ReadFiles(f)), stack, total, tm)
  {
    match f
    case Direct(t) => DirectFold(done, cur, stack, total, tm, second, t);
    case Sizes(ns, g) =>
      SizesFold(done, cur, stack, total, tm, second, ns);
      FoldConcat(At(done, cur, stack, total, tm), SizesEvents(ns), Gap(g));
      GapKeeps(At(done, AddFiles(cur, second, ReadSizes(ns)), stack, total, tm), g);
  }

  // inside a static or transition element

  function SlideStack(fixed: bool): seq<Name> {
    [Background, if fixed then Static else Transition]
  }

  lemma PushAt(done: seq<Slide>, cur: Slide, stack: seq<Name>, total: real, tm: Tm, name: Name)
    ensures Pushed(At(done, cur, stack, total, tm), name) == At(done, cur, stack + [name], total, tm)
  {
  }

  lemma DurationFold(done: seq<Slide>, cur: Slide, fixed: bool, total: real, tm: Tm, t: Text)
    ensures Fold(At(done, cur, SlideStack(fixed) + [Duration], total, tm), [Chars(t)])
         == At(done, cur.(duration := t.asReal), SlideStack(fixed) + [Duration], total + t.asReal, tm)
  {
    var stack := SlideStack(fixed) + [Duration];
    FoldOne(At(done, cur, stack, total, tm), Chars(t));
    LastOf(done, cur, stack, total, tm, cur.(duration := t.asReal));
  }

  lemma PartBodyFold(done: seq<Slide>, cur: Slide, fixed: bool, total: real, tm: Tm, q: Part)
    requires PartOk(q, fixed)
    ensures var stack := SlideStack(fixed) + [PartName(q, fixed)];
            Fold(At(done, cur, stack, total, tm), PartBody(q))
              == At(done, ReadPart(cur, q), stack, total + PartSeconds(q), tm)
  {
    var stack := SlideStack(fixed) + [PartName(q, fixed)];
    match q
    case DurationPart(_, t) => DurationFold(done, cur, fixed, total, tm, t);
    case FirstPart(_, f) => FilesFold(done, cur, stack, total, tm, false, f);
    case SecondPart(_, f) => FilesFold(done, cur, stack, total, tm, true, f);
  }

  lemma PartFold(done: seq<Slide>, cur: Slide, fixed: bool, total: real, tm: Tm, q: Part)
    requires PartOk(q, fixed)
    ensures Fold(At(done, cur, SlideStack(fixed), total, tm), PartEvents(q, fixed))
         == At(done, ReadPart(cur, q), SlideStack(fixed), total + PartSeconds(q), tm)
  {
    var stack, name := SlideStack(fixed), PartName(q, fixed);
    var p := At(done, cur, stack, total, tm);
    FoldConcat(p, Gap(q.gap), [Start(name, [])] + PartBody(q) + [End]);
    GapKeeps(p, q.gap);
    FoldElement(p, name, PartBody(q));
    PushAt(done, cur, stack, total, tm, name);
    PartBodyFold(done, cur, fixed, total, tm, q);
    PushAt(done, ReadPart(cur, q), stack, total + PartSeconds(q), tm, name);
    PopPushed(At(done, ReadPart(cur, q), stack, total + PartSeconds(q), tm), name);
  }

  lemma FoldJoin(p: Show, a: seq<Event>, q: Show, b: seq<Event>, r: Show)
    requires Fold(p, a) == q && Fold(q, b) == r
    ensures Fold(p, a + b) == r
  {
    FoldConcat(p, a, b);
  }

  lemma PartsStep(p: Show, done: seq<Slide>, cur: Slide, fixed: bool, total: real, tm: Tm, before: seq<Event>, q: Part)
    requires Fold(p, before) == At(done, cur, SlideStack(fixed), total, tm) && PartOk(q, fixed)
    ensures Fold(p, before + PartEvents(q, fixed))
         == At(done, ReadPart(cur, q), SlideStack(fixed), total + PartSeconds(q), tm)
  {
    PartFold(done, cur, fixed, total, tm, q);
    FoldJoin(p, before, At(done, cur, SlideStack(fixed), total, tm), PartEvents(q, fixed),
             At(done, ReadPart(cur, q), SlideStack(fixed), total + PartSeconds(q), tm));
  }

  lemma {:induction false} PartsFold(p: Show, before: seq<Event>, done: seq<Slide>, cur: Slide, fixed: bool,
                                     total: real, tm: Tm, qs: seq<Part>)
    requires Fold(p, before) == At(done, cur, SlideStack(fixed), total, tm) && PartsOk(qs, fixed)
    ensures Fold(p, before + PartsEvents(qs, fixed))
         == At(done, ReadParts(cur, qs), SlideStack(fixed), PartsSeconds(total, qs), tm)
  {
    if qs == [] {
      assert before + [] == before;
    } else {
      var most, q := qs[..|qs| - 1], qs[|qs| - 1];
      PartsFold(p, before, done, cur, fixed, total, tm, most);
      PartsStep(p, done, ReadParts(cur, most), fixed, PartsSeconds(total, most), tm,
                before + PartsEvents(most, fixed), q);
      Assoc(before, PartsEvents(most, fixed), PartEvents(q, fixed));
    }
  }

  // inside the background element

  /** The state between the items of the document. */
  function Between(slides: seq<Slide>, total: real, tm: Tm): Show {
    Show(slides, [Background], total, tm, AnySeveral(slides), true)
  }

  lemma SeveralMore(done: seq<Slide>, cur: Slide)
    ensures AnySeveral(done + [cur]) == (AnySeveral(done) || Several(cur))
  {
    assert (done + [cur])[..|done|] == done;
  }

  lemma SlideOpens(done: seq<Slide>, fixed: bool, total: real, tm: Tm)
    ensures AfterStart(Between(done, total, tm), if fixed then Static else Transition, [])
         == At(done, Slide(0.0, fixed, [], []), SlideStack(fixed), total, tm)
  {
    assert [Background] + [if fixed then Static else Transition] == SlideStack(fixed);
  }

  lemma SlideCloses(done: seq<Slide>, cur: Slide, fixed: bool, total: real, tm: Tm)
    ensures AfterEnd(At(done, cur, SlideStack(fixed), total, tm)) == Between(done + [cur], total, tm)
  {
    SeveralMore(done, cur);
    assert SlideStack(fixed)[..1] == [Background];
  }

  lemma GapStep(p: Show, before: seq<Event>, q: Show, g: string)
    requires Fold(p, before) == q && AllSpace(g) && PlaceOf(q.stack).Elsewhere?
    ensures Fold(p, before + Gap(g)) == q
  {
    GapKeeps(q, g);
    FoldJoin(p, before, q, Gap(g), q);
  }

  lemma SlideBody(p: Show, before: seq<Event>, done: seq<Slide>, total: real, tm: Tm, fixed: bool, parts: seq<Part>,
                  gap: string)
    requires Fold(p, before) == Between(done, total, tm) && PartsOk(parts, fixed) && AllSpace(gap)
    ensures Fold(p, before + [Start(if fixed then Static else Transition, [])] + PartsEvents(parts, fixed)
                    + Gap(gap) + [End])
         == Between(done + [ReadSlide(fixed, parts)], PartsSeconds(total, parts), tm)
  {
    var e := Start(if fixed then Static else Transition, []);
    var start, cur, secs := Slide(0.0, fixed, [], []), ReadSlide(fixed, parts), PartsSeconds(total, parts);
    OneStep(p, before, Between(done, total, tm), e);
    SlideOpens(done, fixed, total, tm);
    PartsFold(p, before + [e], done, start, fixed, total, tm, parts);
    GapStep(p, before + [e] + PartsEvents(parts, fixed), At(done, cur, SlideStack(fixed), secs, tm), gap);
    OneStep(p, before + [e] + PartsEvents(parts, fixed) + Gap(gap), At(done, cur, SlideStack(fixed), secs, tm), End);
    SlideCloses(done, cur, fixed, secs, tm);
  }

  lemma SlideFold(p: Show, before: seq<Event>, done: seq<Slide>, total: real, tm: Tm, i: Item)
    requires Fold(p, before) == Between(done, total, tm) && i.SlideItem? && ItemOk(i)
    ensures Fold(p, before + ItemEvents(i))
         == Between(done + [ReadSlide(i.fixed, i.parts)], PartsSeconds(total, i.parts), tm)
  {
    var e := Start(if i.fixed then Static else Transition, []);
    GapStep(p, before, Between(done, total, tm), i.gap);
    SlideBody(p, before + Gap(i.gap), done, total, tm, i.fixed, i.parts, i.endGap);
    ElementAfter(before, Gap(i.gap), e, PartsEvents(i.parts, i.fixed), Gap(i.endGap), End);
  }

  function TimeStack(): seq<Name> {
    [Background, StartTime]
  }

  lemma TimeFold(p: Show, n: TimeNode)
    requires p.stack == TimeStack() && TimeField(n.field) && AllSpace(n.gap)
    ensures Fold(p, TimeEvents(n)) == p.(startTm := SetTime(p.startTm, n.field, n.text.asInt))
  {
    FoldConcat(p, Gap(n.gap), [Start(n.field, []), Chars(n.text), End]);
    GapKeeps(p, n.gap);
    FoldThree(p, Start(n.field, []), Chars(n.text), End);
    assert PlaceOf(Pushed(p, n.field).stack) == AtTime(n.field);
    PopPushed(p.(startTm := SetTime(p.startTm, n.field, n.text.asInt)), n.field);
  }

  lemma {:induction false} TimesFold(p: Show, ns: seq<TimeNode>)
    requires p.stack == TimeStack()
    requires TimesOk(ns)
    ensures Fold(p, TimesEvents(ns)) == p.(startTm := ReadTimes(p.startTm, ns))
  {
    if ns != [] {
      var most, n := ns[..|ns| - 1], ns[|ns| - 1];
      TimesFold(p, most);
      FoldConcat(p, TimesEvents(most), TimeEvents(n));
      TimeFold(p.(startTm := ReadTimes(p.startTm, most)), n);
      OneTimeMore(p.startTm, ns);
    }
  }

  lemma StartTimeBody(p: Show, before: seq<Event>, q: Show, fields: seq<TimeNode>, gap: string)
    requires Fold(p, before) == q && q.stack == [Background] && TimesOk(fields) && AllSpace(gap)
    ensures Fold(p, before + [Start(StartTime, [])] + TimesEvents(fields) + Gap(gap) + [End])
         == q.(startTm := ReadTimes(q.startTm, fields))
  {
    var b1 := before + [Start(StartTime, [])];
    var q1 := Pushed(q, StartTime);
    var q2 := q1.(startTm := ReadTimes(q.startTm, fields));
    OneStep(p, before, q, Start(StartTime, []));
    assert q1.stack == TimeStack();
    TimesFold(q1, fields);
    FoldJoin(p, b1, q1, TimesEvents(fields), q2);
    GapStep(p, b1 + TimesEvents(fields), q2, gap);
    OneStep(p, b1 + TimesEvents(fields) + Gap(gap), q2, End);
    PopPushed(q.(startTm := ReadTimes(q.startTm, fields)), StartTime);
  }

  lemma StartTimeFold(p: Show, before: seq<Event>, q: Show, i: Item)
    requires Fold(p, before) == q && q.stack == [Background] && i.TimeItem? && ItemOk(i)
    ensures Fold(p, before + ItemEvents(i)) == q.(startTm := ReadTimes(q.startTm, i.fields))
  {
    GapStep(p, before, q, i.gap);
    StartTimeBody(p, before + Gap(i.gap), q, i.fields, i.endGap);
    ElementAfter(before, Gap(i.gap), Start(StartTime, []), TimesEvents(i.fields), Gap(i.endGap), End);
  }

  lemma {:induction false} ItemsFold(p: Show, before: seq<Event>, tm: Tm, items: seq<Item>)
    requires Fold(p, before) == Between([], 0.0, tm) && ItemsOk(items)
    ensures Fold(p, before + ItemsEvents(items))
         == Between(ReadSlides(items), ItemsSeconds(items), ReadStart(tm, items))
  {
    if items == [] {
      assert before + [] == before;
    } else {
      var most, i := items[..|items| - 1], items[|items| - 1];
      var b1 := before + ItemsEvents(most);
      ItemsFold(p, before, tm, most);
      if i.SlideItem? {
        SlideFold(p, b1, ReadSlides(most), ItemsSeconds(most), ReadStart(tm, most), i);
      } else {
        StartTimeFold(p, b1, Between(ReadSlides(most), ItemsSeconds(most), ReadStart(tm, most)), i);
      }
      Assoc(before, ItemsEvents(most), ItemEvents(i));
    }
  }

  /** The parser refines the direct reading: on the events of any conforming document it follows no
      null pointer, ends with an empty stack and has read exactly the tree's slides with their file
      lists, their total duration, the start time, and whether some list has more than one size. */
  lemma ParserReadsDocument(epoch: Tm, d: Document)
    requires Conforming(d)
    ensures Fold(Fresh(epoch), Events(d)) ==
              Show(ReadSlides(d.items), [], ItemsSeconds(d.items), ReadStart(epoch, d.items),
                   AnySeveral(ReadSlides(d.items)), true)
  {
    var p, e := Fresh(epoch), Start(Background, []);
    var q := Between(ReadSlides(d.items), ItemsSeconds(d.items), ReadStart(epoch, d.items));
    OneStep(p, [], p, e);
    assert [] + [e] == [e];
    assert Handle(p, e) == Between([], 0.0, epoch);
    ItemsFold(p, [e], epoch, d.items);
    GapStep(p, [e] + ItemsEvents(d.items), q, d.endGap);
    OneStep(p, [e] + ItemsEvents(d.items) + Gap(d.endGap), q, End);
  }

  // ---------- durations ----------

  function Durations(qs: seq<Part>): nat {
    if qs == [] then 0 else Durations(qs[..|qs| - 1]) + (if qs[|qs| - 1].DurationPart? then 1 else 0)
  }

  predicate OneDurationEach(items: seq<Item>) {
    forall k :: 0 <= k < |items| && items[k].SlideItem? ==> Durations(items[k].parts) == 1
  }

  function Sum(slides: seq<Slide>): real {
    if slides == [] then 0.0 else Sum(slides[..|slides| - 1]) + slides[|slides| - 1].duration
  }

  lemma {:induction false} PartsDuration(s: Slide, total: real, qs: seq<Part>)
    ensures Durations(qs) == 0 ==> PartsSeconds(total, qs) == total && ReadParts(s, qs).duration == s.duration
    ensures Durations(qs) == 1 ==> PartsSeconds(total, qs) == total + ReadParts(s, qs).duration
  {
    if qs != [] {
      PartsDuration(s, total, qs[..|qs| - 1]);
    }
  }

  /** With one duration per slide the total is the sum of the slides' durations. */
  lemma {:induction false} TotalIsSum(items: seq<Item>)
    requires OneDurationEach(items)
    ensures ItemsSeconds(items) == Sum(ReadSlides(items))
  {
    if items != [] {
      var most, i := items[..|items| - 1], items[|items| - 1];
      TotalIsSum(most);
      if i.SlideItem? {
        assert items[|items| - 1].SlideItem?;
        PartsDuration(Slide(0.0, i.fixed, [], []), ItemsSeconds(most), i.parts);
        var all := ReadSlides(items);
        assert all[..|all| - 1] == ReadSlides(most);
      }
    }
  }

  /** A file with one duration per slide is read as a slideshow exactly when it has a slide.  Its total
      is then the sum of the durations get_current_slide will see; a single slide lasts G_MAXUINT. */
  lemma SlideshowFromDocument(epoch: Tm, d: Document)
    requires Conforming(d) && OneDurationEach(d.items)
    ensures var r := Finished(Fold(Fresh(epoch), Events(d)));
            && (r.None? <==> ReadSlides(d.items) == [])
            && (r.Some? ==> r.value.total == Sum(r.value.slides) && r.value.stack == [])
            && (r.Some? ==> |r.value.slides| == |ReadSlides(d.items)|)
            && (r.Some? && |r.value.slides| > 1 ==> r.value.slides == ReadSlides(d.items))
            && (r.Some? && |r.value.slides| == 1 ==>
                  r.value.slides == [ReadSlides(d.items)[0].(duration := 4294967295.0)])
  {
    ParserReadsDocument(epoch, d);
    TotalIsSum(d.items);
    var slides := ReadSlides(d.items);
    if |slides| == 1 {
      var only := [slides[0].(duration := G_MAXUINT)];
      assert only[..0] == [];
      assert Sum(only) == Sum([]) + G_MAXUINT;
    }
  }

  // ---------- the parser as the program has it ----------

  function Reversed<T>(s: seq<T>): (r: seq<T>)
    ensures |r| == |s|
  {
    if s == [] then [] else [s[|s| - 1]] + Reversed(s[..|s| - 1])
  }

  class SlideShow {
    var slides: seq<Slide>
    var stack: seq<Name>      // head first
    var totalDuration: real
    var startTm: Tm
    var hasMultipleSizes: bool

    function Value(): Show
      reads this
    {
      Show(slides, stack, totalDuration, startTm, hasMultipleSizes, true)
    }

    constructor (epoch: Tm)
      ensures Value() == Fresh(epoch)
    {
      slides, stack, totalDuration, startTm, hasMultipleSizes := [], [], 0.0, epoch, false;
    }

    /** The names from the innermost element outwards.  The list is built by prepending, then compared
        with the stack from its head. */
    method StackIs(names: seq<Name>) returns (r: bool)
      ensures r == (stack == Reversed(names))
    {
      var list: seq<Name> := [];
      for n := 0 to |names|
        invariant list == Reversed(names[..n])
      {
        assert names[..n + 1][..n] == names[..n];
        list := [names[n]] + list;
      }
      assert names[..|names|] == names;
      var k := 0;
      while k < |list| && k < |stack|
        invariant k <= |list| && k <= |stack| && list[..k] == stack[..k]
      {
        if list[k] != stack[k] {
          return false;
        }
        k := k + 1;
      }
      assert list[..k] == list <==> k == |list|;
      r := k == |list| && k == |stack|;
    }

    lemma Innermost3(a: Name, b: Name, c: Name)
      ensures Reversed([a, b, c]) == [c, b, a]
    {
      assert [a, b, c][..2] == [a, b] && [a, b][..1] == [a] && [a][..0] == [];
      assert Reversed([a, b]) == [b] + Reversed([a]);
      assert Reversed([a, b, c]) == [c] + Reversed([a, b]);
    }

    lemma Innermost4(a: Name, b: Name, c: Name, d: Name)
      ensures Reversed([a, b, c, d]) == [d, c, b, a]
    {
      assert [a, b, c, d][..3] == [a, b, c];
      Innermost3(a, b, c);
    }

    method Is3(a: Name, b: Name) returns (r: bool)
      ensures r == (stack == [Background, b, a])
    {
      Innermost3(a, b, Background);
      r := StackIs([a, b, Background]);
    }

    method Is4(a: Name, b: Name, c: Name) returns (r: bool)
      ensures r == (stack == [Background, c, b, a])
    {
      Innermost4(a, b, c, Background);
      r := StackIs([a, b, c, Background]);
    }

    /** The tests of handle_text on the start time. */
    method TimePlace() returns (field: Option<Name>)
      ensures field == if PlaceOf(stack).AtTime? then Some(PlaceOf(stack).field) else None
    {
      var fields := [Year, Month, Day, Hour, Minute, Second];
      for n := 0 to 6
        invariant forall k :: 0 <= k < n ==> stack != [Background, StartTime, fields[k]]
      {
        var here := Is3(fields[n], StartTime);
        if here {
          return Some(fields[n]);
        }
      }
      NotInTime(stack, fields);
      return None;
    }

    lemma NotInTime(stack: seq<Name>, fields: seq<Name>)
      requires fields == [Year, Month, Day, Hour, Minute, Second]
      requires forall k :: 0 <= k < 6 ==> stack != [Background, StartTime, fields[k]]
      ensures !PlaceOf(stack).AtTime?
    {
      if |stack| == 3 {
        assert stack == [stack[0], stack[1], stack[2]];
        assert fields[0].Year? && fields[1].Month? && fields[2].Day? && fields[3].Hour? && fields[4].Minute?
               && fields[5].Second?;
      }
    }

    /** The other tests, in the order of handle_text. */
    method FilePlace() returns (place: Place)
      requires !PlaceOf(stack).AtTime?
      ensures place == PlaceOf(stack)
    {
      var x := Is3(Duration, Static);
      var y := Is3(Duration, Transition);
      if x || y {
        return AtDuration;
      }
      x := Is3(File, Static);
      y := Is3(From, Transition);
      if x || y {
        return AtFirst;
      }
      x := Is4(Size, File, Static);
      y := Is4(Size, From, Transition);
      if x || y {
        return AtFirstSize;
      }
      x := Is3(To, Transition);
      if x {
        return AtSecond;
      }
      x := Is4(Size, To, Transition);
      if x {
        return AtSecondSize;
      }
      Nowhere(stack);
      return Elsewhere;
    }

    lemma Nowhere(stack: seq<Name>)
      requires !PlaceOf(stack).AtTime?
      requires stack != [Background, Static, Duration] && stack != [Background, Transition, Duration]
      requires stack != [Background, Static, File] && stack != [Background, Transition, From]
      requires stack != [Background, Static, File, Size] && stack != [Background, Transition, From, Size]
      requires stack != [Background, Transition, To] && stack != [Background, Transition, To, Size]
      ensures PlaceOf(stack).Elsewhere?
    {
      if |stack| == 3 {
        assert stack == [stack[0], stack[1], stack[2]];
      } else if |stack| == 4 {
        assert stack == [stack[0], stack[1], stack[2], stack[3]];
      }
    }

    method HandleStart(name: Name, attrs: seq<Attr>)
      requires AfterStart(Value(), name, attrs).safe
      modifies this
      ensures Value() == AfterStart(old(Value()), name, attrs)
    {
      if name.Static? || name.Transition? {
        var slide := Slide(0.0, name.Static?, [], []);
        slides := slides + [slide];
      } else if name.Size? {
        var size := ReadSize(attrs);
        var last := slides[|slides| - 1];
        if stack != [] && (stack[|stack| - 1].File? || stack[|stack| - 1].From?) {
          slides := slides[..|slides| - 1] + [last.(file1 := [size] + last.file1)];
        } else if stack != [] && stack[|stack| - 1].To? {
          slides := slides[..|slides| - 1] + [last.(file2 := [size] + last.file2)];
        }
      }
      stack := stack + [name];
    }

    static method ReadSize(attrs: seq<Attr>) returns (size: FileSize)
      ensures size == SizeOf(attrs)
    {
      size := FileSize(0, 0, None);
      for i := 0 to |attrs|
        invariant size == SizeOf(attrs[..i])
      {
        assert attrs[..i + 1][..i] == attrs[..i];
        match attrs[i]
        case Width(v) => size := size.(width := v);
        case Height(v) => size := size.(height := v);
        case OtherAttr =>
      }
      assert attrs[..|attrs|] == attrs;
    }

    method HandleEnd()
      modifies this
      ensures Value() == AfterEnd(old(Value()))
    {
      if stack != [] {
        stack := stack[..|stack| - 1];
      }
    }

    /** The loop that looks for something other than white space. */
    static method Blank(text: string) returns (blank: bool)
      ensures blank == AllSpace(text)
    {
      var i := 0;
      while i < |text|
        invariant i <= |text| && forall k :: 0 <= k < i ==> IsSpace(text[k])
      {
        if !IsSpace(text[i]) {
          return false;
        }
        i := i + 1;
      }
      return true;
    }

    method SetLast(slide: Slide)
      requires slides != []
      modifies `slides
      ensures Value() == WithLast(old(Value()), slide)
    {
      slides := slides[..|slides| - 1] + [slide];
    }

    method HandleText(text: Text)
      requires AfterText(Value(), text).safe
      modifies this
      ensures Value() == AfterText(old(Value()), text)
    {
      var field := TimePlace();
      if field.Some? {
        startTm := SetTime(startTm, field.value, text.asInt);
        return;
      }
      var place := FilePlace();
      if place.Elsewhere? || slides == [] {
        return;
      }
      var blank := Blank(text.chars);
      var slide := slides[|slides| - 1];
      match place
      case AtDuration =>
        SetLast(slide.(duration := text.asReal));
        totalDuration := totalDuration + text.asReal;
      case AtFirst =>
        if !blank {
          var files := [FileSize(-1, -1, Some(text.chars))] + slide.file1;
          SetLast(slide.(file1 := files));
          NoteSizes(|files|);
        }
      case AtSecond =>
        if !blank {
          var files := [FileSize(-1, -1, Some(text.chars))] + slide.file2;
          SetLast(slide.(file2 := files));
          NoteSizes(|files|);
        }
      case AtFirstSize =>
        var files := [Named(slide.file1[0], text)] + slide.file1[1..];
        SetLast(slide.(file1 := files));
        NoteSizes(|files|);
      case AtSecondSize =>
        var files := [Named(slide.file2[0], text)] + slide.file2[1..];
        SetLast(slide.(file2 := files));
        NoteSizes(|files|);
    }

    method NoteSizes(n: nat)
      modifies `hasMultipleSizes
      ensures hasMultipleSizes == (old(hasMultipleSizes) || n > 1)
    {
      if n > 1 {
        hasMultipleSizes := true;
      }
    }

    /** The parse of a file and what read_slideshow_file does after it. */
    method Read(events: seq<Event>) returns (slideshow: bool)
      requires Value() == Fresh(startTm) && Fold(Value(), events).safe
      modifies this
      ensures slideshow == Finished(Fold(old(Value()), events)).Some?
      ensures slideshow ==> Value() == Finished(Fold(old(Value()), events)).value
    {
      ghost var p := Value();
      for n := 0 to |events|
        invariant Value() == Fold(p, events[..n])
      {
        assert events[..n + 1][..n] == events[..n];
        SafeSoFar(p, events, n + 1);
        assert Fold(p, events[..n + 1]) == Handle(Value(), events[n]);
        match events[n]
        case Start(name, attrs) => HandleStart(name, attrs);
        case End => HandleEnd();
        case Chars(text) => HandleText(text);
      }
      assert events[..|events|] == events;
      if slides == [] {
        return false;
      }
      if |slides| == 1 {
        slides := [slides[0].(duration := G_MAXUINT)];
        totalDuration := G_MAXUINT;
      }
      return true;
    }
  }

  lemma HandleUnsafe(p: Show, e: Event)
    ensures Handle(p, e).safe ==> p.safe
  {
  }

  lemma {:induction false} SafeSoFar(p: Show, es: seq<Event>, n: nat)
    requires n <= |es| && Fold(p, es).safe
    ensures Fold(p, es[..n]).safe
    decreases |es|
  {
    if n == |es| {
      assert es[..n] == es;
    } else {
      var most := es[..|es| - 1];
      HandleUnsafe(Fold(p, most), es[|es| - 1]);
      SafeSoFar(p, most, n);
      assert most[..n] == es[..n];
    }
  }
}

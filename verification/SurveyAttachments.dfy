/** Survey attachments: a walk over the formula moves uploaded files into the survey's
    question folders and collects the files in use, then a sweep removes every other file
    and every empty folder.  The parts of the walk run interleaved. */
module SurveyAttachments {
  import opened Types

  type Key = (string, string)  // (question folder, file name)
  type Content = int

  /** ---- the formula ---- */

  /** A missing link, value or list is the empty one. */
  datatype Element =
    | Panel(name: string, elements: seq<Element>, templateElements: seq<Element>)
    | Choice(name: string)
    | Image(name: string, imageLink: string)
    | ImagePicker(name: string, choices: seq<string>)
    | FileQuestion(name: string, value: string)
    | Other(name: string)

  datatype Formula = Formula(logo: string, pages: seq<seq<Element>>, elements: seq<Element>)

  const LOGO := "logo"

  /** What the walk does to the disk: a file in use is looked for and perhaps moved, and an
      element without attachments has its folder deleted. */
  datatype Action = Mark(folder: string, file: string) | Reset(folder: string)

  /** `url.split('/').pop()` */
  function LastSegment(url: string): string {
    if url == "" || url[|url| - 1] == '/' then ""
    else LastSegment(url[..|url| - 1]) + [url[|url| - 1]]
  }

  function MarkUrl(folder: string, url: string): seq<Action> {
    if url == "" then [] else [Mark(folder, LastSegment(url))]
  }

  function MarkUrls(folder: string, urls: seq<string>): seq<Action> {
    if urls == [] then [] else MarkUrl(folder, urls[0]) + MarkUrls(folder, urls[1..])
  }

  function ElementActions(e: Element): seq<Action>
    decreases e, 0
  {
    match e
    case Panel(_, elements, templates) => ElementsActions(elements) + ElementsActions(templates)
    case Choice(_) => []
    case Image(name, link) => MarkUrl(name, link)
    case ImagePicker(name, choices) => MarkUrls(name, choices)
    case FileQuestion(name, value) => MarkUrl(name, value)
    case Other(name) => [Reset(name)]
  }

  function ElementsActions(es: seq<Element>): seq<Action>
    decreases es, 1
  {
    if es == [] then [] else ElementActions(es[0]) + ElementsActions(es[1..])
  }

  function PagesActions(pages: seq<seq<Element>>): seq<Action> {
    if pages == [] then [] else ElementsActions(pages[0]) + PagesActions(pages[1..])
  }

  function Actions(f: Formula): seq<Action> {
    MarkUrl(LOGO, f.logo) + PagesActions(f.pages) + ElementsActions(f.elements)
  }

  /** ---- what waits for what ---- */

  /** The actions of a walk and, for each, the actions that must have ended before it begins. */
  datatype Plan = Plan(actions: seq<Action>, after: seq<set<nat>>) {
    ghost predicate Ordered() {
      |after| == |actions| && forall i :: 0 <= i < |actions| ==> OrderedAt(i)
    }

    /** What an action waits for comes earlier, with everything that waits for. */
    ghost predicate OrderedAt(i: nat)
      requires i < |actions| == |after|
    {
      forall x :: x in after[i] ==> x < i && after[x] <= after[i]
    }
  }

  function Range(lo: nat, hi: nat): (r: set<nat>)
    ensures forall x :: x in r <==> lo <= x < hi
    decreases hi - lo
  {
    if lo >= hi then {} else {lo} + Range(lo + 1, hi)
  }

  /** What the actions of one element wait for, the first of them having the index `base`.  A
      panel awaits its elements before it begins its template elements; everything else below
      a list of elements or choices runs under one `Promise.all`. */
  function ElementWaits(e: Element, base: nat, before: set<nat>): (r: seq<set<nat>>)
    ensures |r| == |ElementActions(e)|
    decreases e, 0
  {
    match e
    case Panel(_, elements, templates) =>
      var first := ElementsWaits(elements, base, before);
      first + ElementsWaits(templates, base + |first|, before + Range(base, base + |first|))
    case _ => seq(|ElementActions(e)|, _ => before)
  }

  function ElementsWaits(es: seq<Element>, base: nat, before: set<nat>): (r: seq<set<nat>>)
    ensures |r| == |ElementsActions(es)|
    decreases es, 1
  {
    if es == [] then []
    else
      var first := ElementWaits(es[0], base, before);
      first + ElementsWaits(es[1..], base + |first|, before)
  }

  function PagesWaits(pages: seq<seq<Element>>, base: nat, before: set<nat>): (r: seq<set<nat>>)
    ensures |r| == |PagesActions(pages)|
  {
    if pages == [] then []
    else
      var first := ElementsWaits(pages[0], base, before);
      first + PagesWaits(pages[1..], base + |first|, before)
  }

  /** First the logo, then all pages, then the elements outside of pages. */
  function PlanOf(f: Formula): Plan {
    var logo := |MarkUrl(LOGO, f.logo)|;
    var pages := PagesWaits(f.pages, logo, Range(0, logo));
    var next := logo + |pages|;
    Plan(Actions(f), seq(logo, _ => {}) + pages + ElementsWaits(f.elements, next, Range(0, next)))
  }

  /** Waiting lists for the actions from `base` on, all of which wait for `before`. */
  ghost predicate WaitsOk(waits: seq<set<nat>>, base: nat, before: set<nat>) {
    forall i :: 0 <= i < |waits| ==> WaitOk(waits, base, before, i)
  }

  ghost predicate WaitOk(waits: seq<set<nat>>, base: nat, before: set<nat>, i: nat)
    requires i < |waits|
  {
    && before <= waits[i]
    && forall x :: x in waits[i] && x !in before ==> base <= x < base + i && waits[x - base] <= waits[i]
  }

  /** One list after the other, side by side or one waiting for the other. */
  lemma WaitsAppend(a: seq<set<nat>>, b: seq<set<nat>>, base: nat, before: set<nat>, later: set<nat>)
    requires (forall x :: x in before ==> x < base) && WaitsOk(a, base, before)
    requires later == before || later == before + Range(base, base + |a|)
    requires WaitsOk(b, base + |a|, later)
    ensures WaitsOk(a + b, base, before)
  {
    forall i | 0 <= i < |a + b| ensures WaitOk(a + b, base, before, i) {
      if i < |a| {
        assert WaitOk(a, base, before, i);
      } else {
        assert WaitOk(b, base + |a|, later, i - |a|);
        forall x | x in (a + b)[i] && x !in before
          ensures base <= x < base + i && (a + b)[x - base] <= (a + b)[i]
        {
          if x in later {
            assert x < base + |a| && WaitOk(a, base, before, x - base);
          }
        }
      }
    }
  }

  lemma {:induction false} ElementWaitsOk(e: Element, base: nat, before: set<nat>)
    requires forall x :: x in before ==> x < base
    ensures WaitsOk(ElementWaits(e, base, before), base, before)
    decreases e, 0
  {
    if e.Panel? {
      var first := ElementsWaits(e.elements, base, before);
      ElementsWaitsOk(e.elements, base, before);
      ElementsWaitsOk(e.templateElements, base + |first|, before + Range(base, base + |first|));
      WaitsAppend(first, ElementsWaits(e.templateElements, base + |first|, before + Range(base, base + |first|)),
                  base, before, before + Range(base, base + |first|));
    }
  }

  lemma {:induction false} ElementsWaitsOk(es: seq<Element>, base: nat, before: set<nat>)
    requires forall x :: x in before ==> x < base
    ensures WaitsOk(ElementsWaits(es, base, before), base, before)
    decreases es, 1
  {
    if es != [] {
      var first := ElementWaits(es[0], base, before);
      ElementWaitsOk(es[0], base, before);
      ElementsWaitsOk(es[1..], base + |first|, before);
      WaitsAppend(first, ElementsWaits(es[1..], base + |first|, before), base, before, before);
    }
  }

  lemma {:induction false} PagesWaitsOk(pages: seq<seq<Element>>, base: nat, before: set<nat>)
    requires forall x :: x in before ==> x < base
    ensures WaitsOk(PagesWaits(pages, base, before), base, before)
  {
    hide ElementsWaits, ElementsActions, WaitOk;
    if pages != [] {
      var first := ElementsWaits(pages[0], base, before);
      ElementsWaitsOk(pages[0], base, before);
      PagesWaitsOk(pages[1..], base + |first|, before);
      WaitsAppend(first, PagesWaits(pages[1..], base + |first|, before), base, before, before);
    }
  }

  /** Every formula gives an order without cycles in which waiting is passed on. */
  lemma PlanIsOrdered(f: Formula)
    ensures PlanOf(f).Ordered()
  {
    var logo := |MarkUrl(LOGO, f.logo)|;
    var first: seq<set<nat>> := seq(logo, _ => {});
    var pages := PagesWaits(f.pages, logo, Range(0, logo));
    var next := logo + |pages|;
    var rest := ElementsWaits(f.elements, next, Range(0, next));
    PagesWaitsOk(f.pages, logo, Range(0, logo));
    ElementsWaitsOk(f.elements, next, Range(0, next));
    assert Range(0, logo) == {} + Range(0, 0 + |first|);
    WaitsAppend(first, pages, 0, {}, Range(0, logo));
    assert Range(0, next) == {} + Range(0, 0 + |first + pages|);
    WaitsAppend(first + pages, rest, 0, {}, Range(0, next));
    forall i | 0 <= i < |first + pages + rest| ensures PlanOf(f).OrderedAt(i) {
      assert WaitOk(first + pages + rest, 0, {}, i);
    }
  }

  /** ---- the formula that is returned ---- */

  function IndexOf(s: string, part: string): (r: Option<nat>)
    ensures r.Some? ==> r.value + |part| <= |s| && s[r.value..r.value + |part|] == part
  {
    if |s| < |part| then None
    else if part <= s then Some(0)
    else match IndexOf(s[1..], part) case None => None case Some(i) => Some(i + 1)
  }

  /** `url.substring(0, url.indexOf(…))`, which is empty when the endpoint does not occur. */
  function BaseUrl(url: string): string {
    match IndexOf(url, "/surveys/files") case Some(i) => url[..i] case None => ""
  }

  /** The link of a moved file. */
  function NewUrl(url: string, surveyId: string, folder: string, isPublic: bool): string {
    var endpoint := if isPublic then "public-surveys/files" else "surveys/files";
    BaseUrl(url) + "/" + endpoint + "/" + surveyId + "/" + folder + "/" + LastSegment(url)
  }

  /** The first place where the part occurs. */
  lemma {:induction false} IndexOfIsFirst(s: string, part: string, i: nat)
    requires i <= |s| && part <= s[i..] && forall j :: 0 <= j < i ==> !(part <= s[j..])
    ensures IndexOf(s, part) == Some(i)
  {
    if i == 0 {
      assert s[0..] == s;
    } else {
      assert !(part <= s[0..]) && s[0..] == s;
      assert s[1..][i - 1..] == s[i..];
      forall j | 0 <= j < i - 1 ensures !(part <= s[1..][j..]) {
        assert s[1..][j..] == s[j + 1..];
      }
      IndexOfIsFirst(s[1..], part, i - 1);
    }
  }

  /** The link of a moved file leads to the same host, to the survey and folder it is in now. */
  lemma MovedLink(host: string, file: string, surveyId: string, folder: string, isPublic: bool)
    requires '/' !in file
    requires var url := host + "/surveys/files" + ("/" + file); forall j :: 0 <= j < |host| ==> !("/surveys/files" <= url[j..])
    ensures NewUrl(host + "/surveys/files" + ("/" + file), surveyId, folder, isPublic) ==
      host + "/" + (if isPublic then "public-surveys/files" else "surveys/files") + "/" + surveyId + "/" + folder + "/" + file
  {
    hide IndexOf, LastSegment, BaseUrl;
    HostOfLink(host, "/" + file);
    FileOfLink(host + "/surveys/files", file);
  }

  /** A link without the endpoint has no host for the new link. */
  lemma HostlessLink(url: string)
    requires forall j :: 0 <= j <= |url| ==> !("/surveys/files" <= url[j..])
    ensures BaseUrl(url) == ""
  {
    IndexIsAPlace(url, "/surveys/files");
  }

  lemma IndexIsAPlace(s: string, part: string)
    ensures IndexOf(s, part).Some? ==> exists j :: 0 <= j <= |s| && part <= s[j..]
  {
    if IndexOf(s, part).Some? {
      assert part <= s[IndexOf(s, part).value..];
    }
  }

  lemma HostOfLink(host: string, rest: string)
    requires var url := host + "/surveys/files" + rest; forall j :: 0 <= j < |host| ==> !("/surveys/files" <= url[j..])
    ensures BaseUrl(host + "/surveys/files" + rest) == host
  {
    var url := host + "/surveys/files" + rest;
    assert url[|host|..] == "/surveys/files" + rest;
    IndexOfIsFirst(url, "/surveys/files", |host|);
  }

  lemma FileOfLink(front: string, file: string)
    requires '/' !in file
    ensures LastSegment(front + ("/" + file)) == file
  {
    assert front + ("/" + file) == front + "/" + file;
    LastSegmentAfterSlash(front, file);
  }

  ghost predicate UrlAfter(url: string, after: string, surveyId: string, folder: string, isPublic: bool) {
    after == url || (LastSegment(url) != "" && after == NewUrl(url, surveyId, folder, isPublic))
  }

  ghost predicate ElementAfter(e: Element, after: Element, id: string, isPublic: bool)
    decreases e, 0
  {
    match e
    case Panel(n, es, ts) =>
      after.Panel? && after.name == n && ElementsAfter(es, after.elements, id, isPublic) &&
      ElementsAfter(ts, after.templateElements, id, isPublic)
    case Choice(_) => after == e
    case Image(n, link) => after.Image? && after.name == n && UrlAfter(link, after.imageLink, id, n, isPublic)
    case ImagePicker(n, choices) =>
      after.ImagePicker? && after.name == n && |after.choices| == |choices| &&
      forall i :: 0 <= i < |choices| ==> UrlAfter(choices[i], after.choices[i], id, n, isPublic)
    case FileQuestion(n, value) => after.FileQuestion? && after.name == n && UrlAfter(value, after.value, id, n, isPublic)
    case Other(_) => after == e
  }

  ghost predicate ElementsAfter(es: seq<Element>, after: seq<Element>, id: string, isPublic: bool)
    decreases es, 1
  {
    |after| == |es| &&
    (es != [] ==> ElementAfter(es[0], after[0], id, isPublic) && ElementsAfter(es[1..], after[1..], id, isPublic))
  }

  ghost predicate PagesAfter(pages: seq<seq<Element>>, after: seq<seq<Element>>, id: string, isPublic: bool) {
    |after| == |pages| &&
    (pages != [] ==> ElementsAfter(pages[0], after[0], id, isPublic) && PagesAfter(pages[1..], after[1..], id, isPublic))
  }

  /** Every link is kept or replaced by the link of a moved file. */
  ghost predicate FormulaAfter(f: Formula, after: Formula, id: string, isPublic: bool) {
    && UrlAfter(f.logo, after.logo, id, LOGO, isPublic)
    && PagesAfter(f.pages, after.pages, id, isPublic)
    && ElementsAfter(f.elements, after.elements, id, isPublic)
  }

  lemma {:induction false} LastSegmentHasNoSlash(url: string)
    ensures '/' !in LastSegment(url)
  {
    if url != "" && url[|url| - 1] != '/' {
      LastSegmentHasNoSlash(url[..|url| - 1]);
    }
  }

  lemma {:induction false} LastSegmentAfterSlash(prefix: string, file: string)
    requires '/' !in file
    ensures LastSegment(prefix + "/" + file) == file
  {
    var url := prefix + "/" + file;
    if file != "" {
      var n := |file| - 1;
      assert file[n] in file;
      assert url[..|url| - 1] == prefix + "/" + file[..n];
      LastSegmentAfterSlash(prefix, file[..n]);
      assert file[..n] + [file[n]] == file;
    }
  }

  lemma SameMark(url: string, after: string, id: string, folder: string, isPublic: bool)
    requires UrlAfter(url, after, id, folder, isPublic)
    ensures MarkUrl(folder, after) == MarkUrl(folder, url)
  {
    if after != url {
      LastSegmentHasNoSlash(url);
      var endpoint := if isPublic then "public-surveys/files" else "surveys/files";
      var prefix := BaseUrl(url) + "/" + endpoint + "/" + id + "/" + folder;
      assert after == prefix + "/" + LastSegment(url);
      LastSegmentAfterSlash(prefix, LastSegment(url));
    }
  }

  lemma {:induction false} SameMarks(folder: string, urls: seq<string>, after: seq<string>, id: string, isPublic: bool)
    requires |after| == |urls| && forall i :: 0 <= i < |urls| ==> UrlAfter(urls[i], after[i], id, folder, isPublic)
    ensures MarkUrls(folder, after) == MarkUrls(folder, urls)
  {
    if urls != [] {
      SameMark(urls[0], after[0], id, folder, isPublic);
      SameMarks(folder, urls[1..], after[1..], id, isPublic);
    }
  }

  lemma {:induction false} SameElementActions(e: Element, after: Element, id: string, isPublic: bool)
    requires ElementAfter(e, after, id, isPublic)
    ensures ElementActions(after) == ElementActions(e)
    ensures forall base: nat, before :: ElementWaits(after, base, before) == ElementWaits(e, base, before)
    decreases e, 0
  {
    match e
    case Panel(_, es, ts) =>
      SameElementsActions(es, after.elements, id, isPublic);
      SameElementsActions(ts, after.templateElements, id, isPublic);
    case Choice(_) =>
    case Image(n, link) => SameMark(link, after.imageLink, id, n, isPublic);
    case ImagePicker(n, choices) => SameMarks(n, choices, after.choices, id, isPublic);
    case FileQuestion(n, value) => SameMark(value, after.value, id, n, isPublic);
    case Other(_) =>
  }

  lemma {:induction false} SameElementsActions(es: seq<Element>, after: seq<Element>, id: string, isPublic: bool)
    requires ElementsAfter(es, after, id, isPublic)
    ensures ElementsActions(after) == ElementsActions(es)
    ensures forall base: nat, before :: ElementsWaits(after, base, before) == ElementsWaits(es, base, before)
    decreases es, 1
  {
    if es != [] {
      SameElementActions(es[0], after[0], id, isPublic);
      SameElementsActions(es[1..], after[1..], id, isPublic);
    }
  }

  lemma {:induction false} SamePagesActions(pages: seq<seq<Element>>, after: seq<seq<Element>>, id: string, isPublic: bool)
    requires PagesAfter(pages, after, id, isPublic)
    ensures PagesActions(after) == PagesActions(pages)
    ensures forall base: nat, before :: PagesWaits(after, base, before) == PagesWaits(pages, base, before)
  {
    if pages != [] {
      SameElementsActions(pages[0], after[0], id, isPublic);
      SamePagesActions(pages[1..], after[1..], id, isPublic);
    }
  }

  /** The returned formula asks for the same folders and file names as the one given, in the
      same order. */
  lemma ReturnedFormulaHasSameActions(f: Formula, after: Formula, id: string, isPublic: bool)
    requires FormulaAfter(f, after, id, isPublic)
    ensures PlanOf(after) == PlanOf(f)
  {
    SameMark(f.logo, after.logo, id, LOGO, isPublic);
    SamePagesActions(f.pages, after.pages, id, isPublic);
    SameElementsActions(f.elements, after.elements, id, isPublic);
  }

  /** ---- the disk ---- */

  /** The survey's own folder and the user's temporary folder. */
  datatype Disk = Disk(files: map<Key, Content>, folders: set<string>, surveyFolder: bool, temp: map<string, Content>) {
    ghost predicate Tree() {
      && (forall k :: k in files ==> k.0 in folders)
      && (folders != {} ==> surveyFolder)
    }
  }

  /** Where one action stands; `found` tells whether its file name was collected. */
  datatype Pc =
    | Start        // await pathExists(permanentPath)
    | LookInTemp   // await pathExists(tempPath)
    | MakeFolder   // await ensureDirectoryExists
    | MoveFile     // await moveFile
    | Finished(found: bool)

  datatype Walk = Walk(disk: Disk, pcs: seq<Pc>, refs: set<Key>) {
    predicate AllFinished() { forall i :: 0 <= i < |pcs| ==> pcs[i].Finished? }
  }

  function DeleteFolder(d: Disk, folder: string): Disk {
    d.(files := map k | k in d.files && k.0 != folder :: d.files[k], folders := d.folders - {folder})
  }

  /** What one action does next: the new disk and program counter. */
  function Act(d: Disk, a: Action, pc: Pc): (Disk, Pc) {
    match a
    case Reset(folder) => if pc.Finished? then (d, pc) else (DeleteFolder(d, folder), Finished(false))
    case Mark(folder, file) =>
      match pc
      case Start =>
        if file == "" then (d, Finished(false))
        else if (folder, file) in d.files then (d, Finished(true))
        else (d, LookInTemp)
      case LookInTemp => (d, if file in d.temp then MakeFolder else Finished(false))
      case MakeFolder => (d.(folders := d.folders + {folder}, surveyFolder := true), MoveFile)
      case MoveFile =>
        if file in d.temp then
          (d.(files := d.files[(folder, file) := d.temp[file]], folders := d.folders + {folder},
              surveyFolder := true, temp := d.temp - {file}), Finished(true))
        else (d, Finished(false))
      case Finished(_) => (d, pc)
  }

  function Step(actions: seq<Action>, w: Walk, i: nat): Walk
    requires i < |actions| == |w.pcs|
  {
    var (disk, pc) := Act(w.disk, actions[i], w.pcs[i]);
    Walk(disk, w.pcs[i := pc],
         if pc == Finished(true) && actions[i].Mark? then w.refs + {(actions[i].folder, actions[i].file)} else w.refs)
  }

  /** An action of the walk moves, the user uploads a file to the temporary folder, or that
      folder is removed, which an earlier call does on its own once its survey is saved. */
  datatype Event = Move(i: nat) | Upload(file: string, content: Content) | ClearTemp

  /** No action asks for a file of this name. */
  predicate IsNewName(actions: seq<Action>, file: string) {
    forall i :: 0 <= i < |actions| && actions[i].Mark? ==> actions[i].file != file
  }

  ghost predicate Fits(plan: Plan, w: Walk) {
    plan.Ordered() && |w.pcs| == |plan.actions|
  }

  /** An action begins when everything it waits for has ended.  The server makes up the names of
      uploads (see `UploadName`), so a formula that was submitted before does not have them. */
  ghost predicate Enabled(plan: Plan, w: Walk, e: Event)
    requires Fits(plan, w)
  {
    && (e.Move? ==> e.i < |w.pcs| && (w.pcs[e.i].Start? ==> AllEnded(plan, w, plan.after[e.i])))
    && (e.Upload? ==> IsNewName(plan.actions, e.file))
  }

  ghost predicate AllEnded(plan: Plan, w: Walk, xs: set<nat>)
    requires Fits(plan, w)
  {
    forall x :: x in xs ==> x < |w.pcs| && w.pcs[x].Finished?
  }

  function Happen(actions: seq<Action>, w: Walk, e: Event): Walk
    requires |actions| == |w.pcs| && (e.Move? ==> e.i < |actions|)
  {
    match e
    case Move(i) => Step(actions, w, i)
    case Upload(file, content) => w.(disk := w.disk.(temp := w.disk.temp[file := content]))
    case ClearTemp => w.(disk := w.disk.(temp := map[]))
  }

  ghost predicate Runs(plan: Plan, w: Walk, order: seq<Event>, f: Walk)
    requires Fits(plan, w)
    decreases |order|
  {
    if order == [] then f == w
    else Enabled(plan, w, order[0]) && Runs(plan, Happen(plan.actions, w, order[0]), order[1..], f)
  }

  ghost predicate OnlyMoves(order: seq<Event>) {
    forall i :: 0 <= i < |order| ==> order[i].Move?
  }

  function Begin(d: Disk, actions: seq<Action>): (w: Walk)
    ensures |w.pcs| == |actions|
  {
    Walk(d, seq(|actions|, _ => Start), {})
  }

  function FoldersOf(keys: set<Key>): set<string> {
    set k | k in keys :: k.0
  }

  /** `cleanupOrphanedAttachments`: per question folder the unreferenced files, then the
      folder if nothing remains, and in the end the survey's folder. */
  function Sweep(d: Disk, refs: set<Key>): Disk {
    var files := map k | k in d.files && (k.0 in d.folders ==> k in refs) :: d.files[k];
    var folders := d.folders * FoldersOf(files.Keys);
    d.(files := files, folders := folders, surveyFolder := d.surveyFolder && folders != {})
  }

  predicate Stores(a: Action) { a.Mark? && a.file != "" }

  function KeyOf(a: Action): Key
    requires a.Mark?
  {
    (a.folder, a.file)
  }

  /** The element `j` without attachments has the name of the folder that holds a file of `i`. */
  predicate Clash(actions: seq<Action>, i: nat, j: nat)
    requires i < |actions| && j < |actions|
  {
    Stores(actions[i]) && actions[j].Reset? && actions[i].folder == actions[j].folder
  }

  /** No element without attachments carries the name of a folder that holds some. */
  ghost predicate NoClash(actions: seq<Action>) {
    forall i, j :: 0 <= i < |actions| && 0 <= j < |actions| ==> !Clash(actions, i, j)
  }

  /** The folder that is to hold the file of `i` is deleted before the file is looked for. */
  ghost predicate IsEmptied(plan: Plan, i: nat)
    requires plan.Ordered() && i < |plan.actions|
  {
    exists l :: l in plan.after[i] && l < |plan.actions| && Clash(plan.actions, i, l)
  }

  /** Before `i` looks for its file, another element whose folder is emptied too has looked for
      a file of that name, and so has taken it out of the temporary folder. */
  ghost predicate IsUsedUp(plan: Plan, i: nat)
    requires plan.Ordered() && i < |plan.actions|
  {
    exists p :: p in plan.after[i] && p < |plan.actions| && IsEmptied(plan, p) && SameFile(plan.actions[p], plan.actions[i])
  }

  predicate SameFile(a: Action, b: Action) {
    a.Mark? && b.Mark? && a.file == b.file
  }

  /** The file of `i` can be found nowhere. */
  ghost predicate IsLost(plan: Plan, i: nat)
    requires plan.Ordered() && i < |plan.actions|
  {
    IsEmptied(plan, i) && IsUsedUp(plan, i)
  }

  /** A deletion that may run beside or after the look-up of a file in its folder finds none:
      the file cannot be there any more when it is looked for. */
  ghost predicate LateResetsAreHarmless(plan: Plan)
    requires plan.Ordered()
  {
    forall i, j :: 0 <= i < |plan.actions| && 0 <= j < |plan.actions| && Clash(plan.actions, i, j) && j !in plan.after[i] ==>
      IsLost(plan, i)
  }

  /** `f` is an end of the walk by this plan from disk `d0`. */
  ghost predicate WalkEnds(plan: Plan, d0: Disk, order: seq<Event>, f: Walk)
    requires plan.Ordered()
  {
    d0.Tree() && Runs(plan, Begin(d0, plan.actions), order, f) && f.AllFinished()
  }

  /** ---- collected files stay ---- */

  /** Some action has found and collected the file. */
  ghost predicate Collected(actions: seq<Action>, w: Walk, k: Key)
    requires |w.pcs| == |actions|
  {
    exists i :: 0 <= i < |actions| && Stores(actions[i]) && KeyOf(actions[i]) == k && w.pcs[i] == Finished(true)
  }

  ghost predicate BegunInTurn(plan: Plan, w: Walk)
    requires Fits(plan, w)
  {
    forall i :: 0 <= i < |w.pcs| && !w.pcs[i].Start? ==> AllEnded(plan, w, plan.after[i])
  }

  /** What every event keeps when late resets are harmless. */
  ghost predicate RefsKept(plan: Plan, w: Walk) {
    && Fits(plan, w) && w.disk.Tree() && BegunInTurn(plan, w)
    && w.refs <= w.disk.files.Keys
    && (forall k :: k in w.refs ==> Collected(plan.actions, w, k))
    && forall i :: 0 <= i < |w.pcs| ==> if plan.actions[i].Mark? then MarkOk(plan, w, i) else ResetOk(plan, w, i)
  }

  /** A file that is lost is not moved, and an emptied folder's file is not left in the
      temporary folder. */
  ghost predicate MarkOk(plan: Plan, w: Walk, i: nat)
    requires Fits(plan, w) && i < |w.pcs| && plan.actions[i].Mark?
  {
    var a, pc := plan.actions[i], w.pcs[i];
    && (pc == Finished(true) ==> Stores(a) && KeyOf(a) in w.refs)
    && (!pc.Start? && !pc.Finished? ==> Stores(a))
    && (pc.Finished? && IsEmptied(plan, i) ==> a.file !in w.disk.temp)
    && (pc.MakeFolder? || pc.MoveFile? ==> !IsLost(plan, i))
  }

  /** In a folder that was deleted are only files that were brought in since, and none while
      the temporary folder has one of its name. */
  ghost predicate ResetOk(plan: Plan, w: Walk, j: nat)
    requires Fits(plan, w) && j < |w.pcs| && plan.actions[j].Reset?
  {
    w.pcs[j].Finished? ==> forall k :: k in w.disk.files && k.0 == plan.actions[j].folder ==>
      BroughtIn(plan, w, k) && (k.1 in w.disk.temp ==> IsNewName(plan.actions, k.1))
  }

  ghost predicate BroughtIn(plan: Plan, w: Walk, k: Key)
    requires Fits(plan, w)
  {
    exists m :: 0 <= m < |w.pcs| && Stores(plan.actions[m]) && KeyOf(plan.actions[m]) == k &&
      w.pcs[m] == Finished(true) && !IsLost(plan, m)
  }

  lemma StepBegunInTurn(plan: Plan, w: Walk, e: Event)
    requires Fits(plan, w) && BegunInTurn(plan, w) && Enabled(plan, w, e)
    ensures BegunInTurn(plan, Happen(plan.actions, w, e))
  {
    if e.Move? {
      var t := Step(plan.actions, w, e.i);
      assert w.pcs[e.i].Finished? ==> t.pcs == w.pcs;
      forall i | 0 <= i < |t.pcs| && !t.pcs[i].Start? ensures AllEnded(plan, t, plan.after[i]) {
        assert AllEnded(plan, w, plan.after[i]);
      }
    }
  }

  /** A deletion that still runs has no collected file in its folder. */
  lemma NothingCollectedThere(plan: Plan, w: Walk, j: nat, k: Key)
    requires RefsKept(plan, w) && LateResetsAreHarmless(plan) && k in w.refs
    requires j < |w.pcs| && plan.actions[j].Reset? && !w.pcs[j].Finished?
    ensures k.0 != plan.actions[j].folder
  {
    if k.0 == plan.actions[j].folder {
      NothingBroughtInThere(plan, w, j, k);
      var i :| 0 <= i < |plan.actions| && Stores(plan.actions[i]) && KeyOf(plan.actions[i]) == k && w.pcs[i] == Finished(true);
      FinishedBesideIsLost(plan, w, i, j);
      LostIsFoundIfBroughtIn(plan, w, i);
      assert false;
    }
  }

  lemma NothingBroughtInThere(plan: Plan, w: Walk, j: nat, k: Key)
    requires RefsKept(plan, w) && LateResetsAreHarmless(plan)
    requires j < |w.pcs| && plan.actions[j] == Reset(k.0) && !w.pcs[j].Finished?
    ensures !BroughtIn(plan, w, k)
  {
    forall m | 0 <= m < |w.pcs| && Stores(plan.actions[m]) && KeyOf(plan.actions[m]) == k && w.pcs[m] == Finished(true)
      ensures IsLost(plan, m)
    {
      FinishedBesideIsLost(plan, w, m, j);
    }
  }

  /** What is found although it is lost was brought in by another action. */
  lemma LostIsFoundIfBroughtIn(plan: Plan, w: Walk, i: nat)
    requires RefsKept(plan, w) && i < |w.pcs| && IsLost(plan, i) && w.pcs[i] == Finished(true)
    ensures plan.actions[i].Mark? && BroughtIn(plan, w, KeyOf(plan.actions[i]))
  {
    var l :| l in plan.after[i] && l < |plan.actions| && Clash(plan.actions, i, l);
    assert AllEnded(plan, w, plan.after[i]) && ResetOk(plan, w, l) && MarkOk(plan, w, i);
  }

  lemma FinishedBesideIsLost(plan: Plan, w: Walk, i: nat, j: nat)
    requires RefsKept(plan, w) && LateResetsAreHarmless(plan)
    requires i < |w.pcs| && j < |w.pcs| && Clash(plan.actions, i, j) && w.pcs[i].Finished? && !w.pcs[j].Finished?
    ensures IsLost(plan, i)
  {
    assert AllEnded(plan, w, plan.after[i]) && j !in plan.after[i];
  }

  /** A lost file is not in the temporary folder when it is looked for. */
  lemma LostIsNotInTemp(plan: Plan, w: Walk, i: nat)
    requires RefsKept(plan, w) && i < |w.pcs| && IsLost(plan, i) && !w.pcs[i].Start?
    ensures plan.actions[i].Mark? && plan.actions[i].file !in w.disk.temp
  {
    var p :| p in plan.after[i] && p < |plan.actions| && IsEmptied(plan, p) && SameFile(plan.actions[p], plan.actions[i]);
    assert AllEnded(plan, w, plan.after[i]) && MarkOk(plan, w, p);
  }

  /** Where the folder was emptied, a file that is found was brought in. */
  lemma FoundIsNotInTemp(plan: Plan, w: Walk, i: nat)
    requires RefsKept(plan, w) && i < |w.pcs| && IsEmptied(plan, i) && AllEnded(plan, w, plan.after[i])
    requires KeyOf(plan.actions[i]) in w.disk.files
    ensures plan.actions[i].file !in w.disk.temp
  {
    var l :| l in plan.after[i] && l < |plan.actions| && Clash(plan.actions, i, l);
    assert ResetOk(plan, w, l);
  }

  lemma StepKeepsMark(plan: Plan, w: Walk, e: Event, i: nat)
    requires RefsKept(plan, w) && Enabled(plan, w, e) && i < |w.pcs| && plan.actions[i].Mark?
    ensures MarkOk(plan, Happen(plan.actions, w, e), i)
  {
    hide Runs, Clash, IsEmptied, IsUsedUp, ResetOk, BegunInTurn, Collected;
    var t := Happen(plan.actions, w, e);
    assert MarkOk(plan, w, i);
    if e == Move(i) {
      if w.pcs[i].LookInTemp? && IsLost(plan, i) {
        LostIsNotInTemp(plan, w, i);
      }
      if w.pcs[i].Start? && IsEmptied(plan, i) && KeyOf(plan.actions[i]) in w.disk.files {
        FoundIsNotInTemp(plan, w, i);
      }
      if IsEmptied(plan, i) {
        EmptiedStores(plan, i);
      }
    } else if e.Upload? {
      assert plan.actions[i].file != e.file;
    }
  }

  lemma EmptiedStores(plan: Plan, i: nat)
    requires plan.Ordered() && i < |plan.actions| && IsEmptied(plan, i)
    ensures Stores(plan.actions[i])
  {
  }

  lemma StepKeepsReset(plan: Plan, w: Walk, e: Event, j: nat)
    requires RefsKept(plan, w) && Enabled(plan, w, e) && j < |w.pcs| && plan.actions[j].Reset?
    ensures ResetOk(plan, Happen(plan.actions, w, e), j)
  {
    hide Runs, Clash, IsEmptied, IsUsedUp, IsLost, BegunInTurn, Collected;
    var t := Happen(plan.actions, w, e);
    if t.pcs[j].Finished? {
      forall k | k in t.disk.files && k.0 == plan.actions[j].folder
        ensures BroughtIn(plan, t, k) && (k.1 in t.disk.temp ==> IsNewName(plan.actions, k.1))
      {
        assert ResetOk(plan, w, j);
        if k in w.disk.files && w.pcs[j].Finished? {
          var m :| 0 <= m < |w.pcs| && Stores(plan.actions[m]) && KeyOf(plan.actions[m]) == k &&
            w.pcs[m] == Finished(true) && !IsLost(plan, m);
          assert t.pcs[m] == Finished(true);
        } else {
          assert e.Move? && plan.actions[e.i].Mark? && KeyOf(plan.actions[e.i]) == k;
          assert MarkOk(plan, w, e.i) && t.pcs[e.i] == Finished(true);
        }
      }
    }
  }

  lemma StepKeepsRefs(plan: Plan, w: Walk, e: Event)
    requires RefsKept(plan, w) && LateResetsAreHarmless(plan) && Enabled(plan, w, e)
    ensures RefsKept(plan, Happen(plan.actions, w, e))
  {
    hide LateResetsAreHarmless, IsLost, IsEmptied, BroughtIn;
    StepBegunInTurn(plan, w, e);
    var t := Happen(plan.actions, w, e);
    forall i | 0 <= i < |t.pcs|
      ensures if plan.actions[i].Mark? then MarkOk(plan, t, i) else ResetOk(plan, t, i)
    {
      if plan.actions[i].Mark? {
        StepKeepsMark(plan, w, e, i);
      } else {
        StepKeepsReset(plan, w, e, i);
      }
    }
    StepKeepsFiles(plan, w, e);
  }

  lemma StepKeepsFiles(plan: Plan, w: Walk, e: Event)
    requires RefsKept(plan, w) && LateResetsAreHarmless(plan) && Enabled(plan, w, e)
    ensures var t := Happen(plan.actions, w, e);
      t.disk.Tree() && t.refs <= t.disk.files.Keys && forall k :: k in t.refs ==> Collected(plan.actions, t, k)
  {
    hide LateResetsAreHarmless, IsLost, IsEmptied, BroughtIn, ResetOk, BegunInTurn;
    var t := Happen(plan.actions, w, e);
    forall k | k in t.refs ensures k in t.disk.files && Collected(plan.actions, t, k) {
      if k in w.refs {
        var i :| 0 <= i < |plan.actions| && Stores(plan.actions[i]) && KeyOf(plan.actions[i]) == k && w.pcs[i] == Finished(true);
        assert t.pcs[i] == Finished(true);
        if e.Move? && plan.actions[e.i].Reset? && !w.pcs[e.i].Finished? {
          NothingCollectedThere(plan, w, e.i, k);
        }
      } else {
        assert MarkOk(plan, w, e.i);
        assert k == KeyOf(plan.actions[e.i]) && t.pcs[e.i] == Finished(true);
      }
    }
  }

  lemma {:induction false} RunKeepsRefs(plan: Plan, w: Walk, order: seq<Event>, f: Walk)
    requires RefsKept(plan, w) && LateResetsAreHarmless(plan) && Runs(plan, w, order, f)
    ensures RefsKept(plan, f)
    decreases |order|
  {
    hide LateResetsAreHarmless;
    if order != [] {
      StepKeepsRefs(plan, w, order[0]);
      RunKeepsRefs(plan, Happen(plan.actions, w, order[0]), order[1..], f);
    }
  }

  /** ---- content ---- */

  /** Files that can come from the temporary folder, with their contents. */
  ghost function Pool(d0: Disk, order: seq<Event>): set<(string, Content)> {
    (set n | n in d0.temp :: (n, d0.temp[n])) +
    (set i | 0 <= i < |order| && order[i].Upload? :: (order[i].file, order[i].content))
  }

  /** Every file has the content it had, or that of a temporary file of its name. */
  ghost predicate ContentKept(d0: Disk, pool: set<(string, Content)>, d: Disk) {
    && (forall k :: k in d.files ==> (k in d0.files && d.files[k] == d0.files[k]) || (k.1, d.files[k]) in pool)
    && (forall n :: n in d.temp ==> (n, d.temp[n]) in pool)
  }

  lemma {:induction false} RunKeepsContent(plan: Plan, w: Walk, order: seq<Event>, f: Walk, d0: Disk, pool: set<(string, Content)>)
    requires Fits(plan, w) && Runs(plan, w, order, f) && ContentKept(d0, pool, w.disk)
    requires forall i :: 0 <= i < |order| && order[i].Upload? ==> (order[i].file, order[i].content) in pool
    ensures ContentKept(d0, pool, f.disk)
    decreases |order|
  {
    if order != [] {
      RunKeepsContent(plan, Happen(plan.actions, w, order[0]), order[1..], f, d0, pool);
    }
  }

  /** ---- files that were there ---- */

  /** Of a file in a folder that no element deletes: it is kept as it is, and every action that
      uses it finds and collects it. */
  ghost predicate Untouched(d0: Disk, actions: seq<Action>, w: Walk, k: Key)
    requires |w.pcs| == |actions|
  {
    && k in d0.files && k in w.disk.files && w.disk.files[k] == d0.files[k]
    && forall i :: 0 <= i < |actions| && actions[i].Mark? && KeyOf(actions[i]) == k ==>
         w.pcs[i].Start? || (w.pcs[i].Finished? && (Stores(actions[i]) ==> w.pcs[i] == Finished(true) && k in w.refs))
  }

  lemma {:induction false} RunLeavesUntouched(plan: Plan, w: Walk, order: seq<Event>, f: Walk, d0: Disk, k: Key)
    requires Fits(plan, w) && Runs(plan, w, order, f) && Untouched(d0, plan.actions, w, k)
    requires forall j :: 0 <= j < |plan.actions| && plan.actions[j].Reset? ==> plan.actions[j].folder != k.0
    ensures |f.pcs| == |plan.actions| && Untouched(d0, plan.actions, f, k)
    decreases |order|
  {
    if order != [] {
      RunLeavesUntouched(plan, Happen(plan.actions, w, order[0]), order[1..], f, d0, k);
    }
  }

  /** ---- what every step keeps without uploads and clashes ---- */

  /** What is known of one action. */
  ghost predicate ActionOk(d0: Disk, d: Disk, refs: set<Key>, a: Action, pc: Pc) {
    match a
    case Reset(folder) => pc.Finished? ==> folder !in d.folders
    case Mark(folder, file) =>
      && (file != "" && (folder, file) in d0.files ==> (folder, file) in d.files)
      && (pc == Finished(true) ==> file != "" && (folder, file) in refs)
      && (pc == Finished(false) ==> file == "" || (file !in d.temp && (folder, file) !in d0.files))
      && (!pc.Start? && !pc.Finished? ==> file != "" && (folder, file) !in d0.files)
  }

  /** Files keep their content: a file was there before, or it came from the temporary folder. */
  ghost predicate Conserved(d0: Disk, d: Disk) {
    && (forall k :: k in d.files && k in d0.files ==> d.files[k] == d0.files[k])
    && (forall k :: k in d.files && k !in d0.files ==> k.1 in d0.temp && d.files[k] == d0.temp[k.1])
    && (forall n :: n in d.temp ==> n in d0.temp && d.temp[n] == d0.temp[n])
  }

  /** Every reference belongs to some action of the formula. */
  ghost predicate Wanted(actions: seq<Action>, k: Key) {
    exists i :: 0 <= i < |actions| && Stores(actions[i]) && KeyOf(actions[i]) == k
  }

  ghost predicate Inv(d0: Disk, actions: seq<Action>, w: Walk) {
    && |w.pcs| == |actions| && w.disk.Tree() && Conserved(d0, w.disk)
    && w.refs <= w.disk.files.Keys
    && (forall k :: k in w.refs ==> Wanted(actions, k))
    && (forall i :: 0 <= i < |actions| ==> ActionOk(d0, w.disk, w.refs, actions[i], w.pcs[i]))
  }

  /** The effect of one action on the disk. */
  lemma ActEffect(d0: Disk, d: Disk, refs: set<Key>, a: Action, pc: Pc)
    requires d.Tree() && Conserved(d0, d) && ActionOk(d0, d, refs, a, pc)
    ensures var (d', pc') := Act(d, a, pc);
      && d'.Tree() && Conserved(d0, d') && d'.temp.Keys <= d.temp.Keys
      && (a.Mark? ==> d.files.Keys <= d'.files.Keys && d'.folders <= d.folders + (if Stores(a) then {a.folder} else {}))
      && (a.Reset? ==> d'.folders <= d.folders && forall k :: k in d.files && k.0 != a.folder ==> k in d'.files)
      && (a.Mark? && pc' == Finished(true) && !pc.Finished? ==> Stores(a) && KeyOf(a) in d'.files)
  {
  }

  lemma ActKeepsOthers(d0: Disk, d: Disk, refs: set<Key>, a: Action, pc: Pc, b: Action, bpc: Pc, refs': set<Key>)
    requires d.Tree() && Conserved(d0, d) && ActionOk(d0, d, refs, a, pc) && ActionOk(d0, d, refs, b, bpc)
    requires refs <= refs'
    requires Stores(a) && b.Reset? ==> a.folder != b.folder
    requires Stores(b) && a.Reset? ==> a.folder != b.folder
    ensures ActionOk(d0, Act(d, a, pc).0, refs', b, bpc)
  {
    ActEffect(d0, d, refs, a, pc);
  }

  lemma ActKeepsOwn(d0: Disk, d: Disk, refs: set<Key>, a: Action, pc: Pc)
    requires d.Tree() && Conserved(d0, d) && ActionOk(d0, d, refs, a, pc)
    ensures var (d', pc') := Act(d, a, pc);
      ActionOk(d0, d', if pc' == Finished(true) && a.Mark? then refs + {KeyOf(a)} else refs, a, pc')
  {
  }

  lemma StepInv(d0: Disk, actions: seq<Action>, w: Walk, i: nat)
    requires NoClash(actions) && Inv(d0, actions, w) && i < |actions|
    ensures Inv(d0, actions, Step(actions, w, i))
  {
    var t, a, pc := Step(actions, w, i), actions[i], w.pcs[i];
    ActEffect(d0, w.disk, w.refs, a, pc);
    forall j | 0 <= j < |actions| ensures ActionOk(d0, t.disk, t.refs, actions[j], t.pcs[j]) {
      if j == i {
        ActKeepsOwn(d0, w.disk, w.refs, a, pc);
      } else {
        assert !Clash(actions, i, j) && !Clash(actions, j, i);
        ActKeepsOthers(d0, w.disk, w.refs, a, pc, actions[j], w.pcs[j], t.refs);
      }
    }
    forall k | k in t.refs ensures k in t.disk.files && Wanted(actions, k) {
      if k in w.refs {
        var m :| 0 <= m < |actions| && Stores(actions[m]) && KeyOf(actions[m]) == k;
        assert k in w.disk.files && !Clash(actions, m, i);
      } else {
        assert k == KeyOf(a);
      }
    }
  }

  lemma {:induction false} RunInv(d0: Disk, plan: Plan, w: Walk, order: seq<Event>, f: Walk)
    requires plan.Ordered() && NoClash(plan.actions) && Inv(d0, plan.actions, w)
    requires Runs(plan, w, order, f) && OnlyMoves(order)
    ensures Inv(d0, plan.actions, f)
    decreases |order|
  {
    if order != [] {
      StepInv(d0, plan.actions, w, order[0].i);
      RunInv(d0, plan, Happen(plan.actions, w, order[0]), order[1..], f);
    }
  }

  /** ---- the result ---- */

  /** The files are exactly the references, and no folder is empty. */
  ghost predicate Clean(d: Disk, refs: set<Key>) {
    && d.files.Keys == refs
    && d.folders == FoldersOf(refs)
    && (d.surveyFolder ==> refs != {})
  }

  lemma SweepMeaning(d: Disk, refs: set<Key>)
    requires d.Tree()
    ensures Sweep(d, refs).files.Keys == d.files.Keys * refs
    ensures forall k :: k in Sweep(d, refs).files ==> Sweep(d, refs).files[k] == d.files[k]
    ensures Sweep(d, refs).Tree()
    ensures Clean(Sweep(d, refs), refs) <==> refs <= d.files.Keys
  {
    var t := Sweep(d, refs);
    assert t.files.Keys == d.files.Keys * refs;
    if refs <= d.files.Keys {
      assert t.files.Keys == refs;
      assert FoldersOf(refs) <= d.folders;
    }
  }

  /** In every interleaving that the order of the walk allows, with uploads at any time, for
      every formula whose late resets are harmless: after the walk and the sweep the survey's
      files are exactly the collected references, all of which the formula asks for, no empty
      folder remains, and no content is made up. */
  lemma PreProcessKeepsExactlyTheReferences(d0: Disk, plan: Plan, order: seq<Event>, f: Walk)
    requires plan.Ordered() && LateResetsAreHarmless(plan) && WalkEnds(plan, d0, order, f)
    ensures Clean(Sweep(f.disk, f.refs), f.refs)
    ensures forall k :: k in f.refs ==> Wanted(plan.actions, k)
    ensures ContentKept(d0, Pool(d0, order), Sweep(f.disk, f.refs))
  {
    var w := Begin(d0, plan.actions);
    RunKeepsRefs(plan, w, order, f);
    RunKeepsContent(plan, w, order, f, d0, Pool(d0, order));
    SweepMeaning(f.disk, f.refs);
    forall k | k in f.refs ensures Wanted(plan.actions, k) {
      assert Collected(plan.actions, f, k);
    }
  }

  /** Without a clash, every file the formula asks for and that was there is kept as it was. */
  lemma WantedFilesAreKept(d0: Disk, plan: Plan, order: seq<Event>, f: Walk, k: Key)
    requires plan.Ordered() && NoClash(plan.actions) && WalkEnds(plan, d0, order, f)
    requires Wanted(plan.actions, k) && k in d0.files
    ensures k in f.refs && k in Sweep(f.disk, f.refs).files && Sweep(f.disk, f.refs).files[k] == d0.files[k]
  {
    var i :| 0 <= i < |plan.actions| && Stores(plan.actions[i]) && KeyOf(plan.actions[i]) == k;
    forall j | 0 <= j < |plan.actions| && plan.actions[j].Reset? ensures plan.actions[j].folder != k.0 {
      assert !Clash(plan.actions, i, j);
    }
    RunLeavesUntouched(plan, Begin(d0, plan.actions), order, f, d0, k);
  }

  /** ---- what the formula asks for ---- */

  /** An element of a list at any depth: in panels, among their elements or template elements. */
  ghost predicate IsIn(e: Element, es: seq<Element>)
    decreases es
  {
    exists i :: 0 <= i < |es| &&
      (es[i] == e || (es[i].Panel? && (IsIn(e, es[i].elements) || IsIn(e, es[i].templateElements))))
  }

  ghost predicate IsElementOf(e: Element, f: Formula) {
    IsIn(e, f.elements) || exists i :: 0 <= i < |f.pages| && IsIn(e, f.pages[i])
  }

  /** `file` is what follows the last slash of `url`, or all of it. */
  predicate IsLastSegment(url: string, file: string) {
    && '/' !in file && |file| <= |url| && url[|url| - |file|..] == file
    && (|file| == |url| || url[|url| - |file| - 1] == '/')
  }

  predicate IsLinkTo(url: string, file: string) {
    url != "" && file != "" && IsLastSegment(url, file)
  }

  /** The element links to a file, which belongs in the folder of its name. */
  ghost predicate LinksTo(e: Element, folder: string, file: string) {
    match e
    case Image(name, link) => name == folder && IsLinkTo(link, file)
    case ImagePicker(name, choices) => name == folder && exists i :: 0 <= i < |choices| && IsLinkTo(choices[i], file)
    case FileQuestion(name, value) => name == folder && IsLinkTo(value, file)
    case _ => false
  }

  ghost predicate AsksFor(f: Formula, k: Key) {
    (k.0 == "logo" && IsLinkTo(f.logo, k.1)) || exists e :: IsElementOf(e, f) && LinksTo(e, k.0, k.1)
  }

  /** The walk of these actions looks for the file. */
  ghost predicate Marks(actions: seq<Action>, folder: string, file: string) {
    file != "" && Mark(folder, file) in actions
  }

  lemma {:induction false} LastSegmentIs(url: string)
    ensures IsLastSegment(url, LastSegment(url))
  {
    if url != "" && url[|url| - 1] != '/' {
      var front, c := url[..|url| - 1], url[|url| - 1];
      LastSegmentIs(front);
      var file := LastSegment(front);
      assert url[|url| - |file| - 1..] == front[|front| - |file|..] + [c];
    }
  }

  lemma OneLastSegment(url: string, file: string)
    ensures IsLastSegment(url, file) <==> file == LastSegment(url)
  {
    LastSegmentIs(url);
    hide LastSegment;
    if IsLastSegment(url, file) {
      NoLongerSegment(url, file, LastSegment(url));
      NoLongerSegment(url, LastSegment(url), file);
    }
  }

  lemma NoLongerSegment(url: string, a: string, b: string)
    requires IsLastSegment(url, a) && IsLastSegment(url, b)
    ensures |b| <= |a|
  {
    var i := |url| - |a| - 1;
    assert forall j :: |url| - |b| <= j < |url| ==> url[j] == url[|url| - |b|..][j - (|url| - |b|)] && url[j] in b;
  }

  lemma MarkOfUrl(folder: string, url: string, k: Key)
    ensures Marks(MarkUrl(folder, url), k.0, k.1) <==> folder == k.0 && IsLinkTo(url, k.1)
  {
    OneLastSegment(url, k.1);
  }

  lemma {:induction false} MarksOfUrls(folder: string, urls: seq<string>, k: Key)
    ensures Marks(MarkUrls(folder, urls), k.0, k.1) <==>
      folder == k.0 && exists i :: 0 <= i < |urls| && IsLinkTo(urls[i], k.1)
  {
    if urls != [] {
      MarkOfUrl(folder, urls[0], k);
      MarksOfUrls(folder, urls[1..], k);
      if i :| 0 <= i < |urls| && IsLinkTo(urls[i], k.1) {
        assert i > 0 ==> urls[1..][i - 1] == urls[i];
      }
      if i :| 0 <= i < |urls[1..]| && IsLinkTo(urls[1..][i], k.1) {
        assert urls[i + 1] == urls[1..][i];
      }
    }
  }

  /** No element with attachments deletes a folder. */
  lemma {:induction false} NoResetOfUrls(folder: string, urls: seq<string>, n: string)
    ensures Reset(n) !in MarkUrls(folder, urls)
  {
    if urls != [] {
      NoResetOfUrls(folder, urls[1..], n);
    }
  }

  /** The first element of a list, or one further on. */
  lemma InFirstOrRest(e: Element, es: seq<Element>)
    requires es != []
    ensures IsIn(e, es) <==> es[0] == e || InPanel(e, es[0]) || IsIn(e, es[1..])
  {
    if IsIn(e, es) {
      var i :| 0 <= i < |es| && (es[i] == e || (es[i].Panel? && (IsIn(e, es[i].elements) || IsIn(e, es[i].templateElements))));
      assert i > 0 ==> es[1..][i - 1] == es[i];
    }
    if IsIn(e, es[1..]) {
      var i :| 0 <= i < |es[1..]| && (es[1..][i] == e || (es[1..][i].Panel? && (IsIn(e, es[1..][i].elements) || IsIn(e, es[1..][i].templateElements))));
      assert es[i + 1] == es[1..][i];
    }
  }

  ghost predicate InPanel(e: Element, panel: Element) {
    panel.Panel? && (IsIn(e, panel.elements) || IsIn(e, panel.templateElements))
  }

  /** Some element of a list links to the file. */
  ghost predicate ListLinksTo(es: seq<Element>, k: Key) {
    exists e :: IsIn(e, es) && LinksTo(e, k.0, k.1)
  }

  lemma ListLinksFirstOrRest(es: seq<Element>, k: Key)
    requires es != []
    ensures ListLinksTo(es, k) <==>
      || LinksTo(es[0], k.0, k.1) || ListLinksTo(es[1..], k)
      || (es[0].Panel? && (ListLinksTo(es[0].elements, k) || ListLinksTo(es[0].templateElements, k)))
  {
    hide IsIn, LinksTo;
    forall e ensures IsIn(e, es) <==> es[0] == e || InPanel(e, es[0]) || IsIn(e, es[1..]) {
      InFirstOrRest(e, es);
    }
  }

  lemma MarksAppend(a: seq<Action>, b: seq<Action>, k: Key)
    ensures Marks(a + b, k.0, k.1) <==> Marks(a, k.0, k.1) || Marks(b, k.0, k.1)
  {
  }

  lemma {:induction false} MarksOfElement(e: Element, k: Key)
    ensures Marks(ElementActions(e), k.0, k.1) <==>
      LinksTo(e, k.0, k.1) || (e.Panel? && (ListLinksTo(e.elements, k) || ListLinksTo(e.templateElements, k)))
    decreases e, 0
  {
    match e
    case Panel(_, es, ts) =>
      MarksOfElements(es, k);
      MarksOfElements(ts, k);
      MarksAppend(ElementsActions(es), ElementsActions(ts), k);
    case Choice(_) =>
    case Image(n, link) => MarkOfUrl(n, link, k);
    case ImagePicker(n, choices) => MarksOfUrls(n, choices, k);
    case FileQuestion(n, value) => MarkOfUrl(n, value, k);
    case Other(_) =>
  }

  lemma {:induction false} MarksOfElements(es: seq<Element>, k: Key)
    ensures Marks(ElementsActions(es), k.0, k.1) <==> ListLinksTo(es, k)
    decreases es, 1
  {
    if es != [] {
      MarksOfElement(es[0], k);
      MarksOfElements(es[1..], k);
      MarksAppend(ElementActions(es[0]), ElementsActions(es[1..]), k);
      ListLinksFirstOrRest(es, k);
    }
  }

  lemma {:induction false} MarksOfPages(pages: seq<seq<Element>>, k: Key)
    ensures Marks(PagesActions(pages), k.0, k.1) <==> exists i :: 0 <= i < |pages| && ListLinksTo(pages[i], k)
  {
    if pages != [] {
      MarksOfElements(pages[0], k);
      MarksOfPages(pages[1..], k);
      MarksAppend(ElementsActions(pages[0]), PagesActions(pages[1..]), k);
      if i :| 0 <= i < |pages| && ListLinksTo(pages[i], k) {
        assert i > 0 ==> pages[1..][i - 1] == pages[i];
      }
      if i :| 0 <= i < |pages[1..]| && ListLinksTo(pages[1..][i], k) {
        assert pages[i + 1] == pages[1..][i];
      }
    }
  }

  /** The walk looks for exactly the files that the formula asks for: that of the logo, and those
      that an element at any depth links to, in the folder of its name. */
  lemma WantedIsWhatTheFormulaAsksFor(f: Formula, k: Key)
    ensures Wanted(PlanOf(f).actions, k) <==> AsksFor(f, k)
  {
    var logo, pages, elements := MarkUrl(LOGO, f.logo), PagesActions(f.pages), ElementsActions(f.elements);
    MarkOfUrl(LOGO, f.logo, k);
    MarksOfPages(f.pages, k);
    MarksOfElements(f.elements, k);
    MarksAppend(logo, pages, k);
    MarksAppend(logo + pages, elements, k);
    WantedIsMarked(PlanOf(f).actions, k);
    AsksByPlace(f, k);
  }

  lemma WantedIsMarked(actions: seq<Action>, k: Key)
    ensures Wanted(actions, k) <==> Marks(actions, k.0, k.1)
  {
    if Marks(actions, k.0, k.1) {
      var i :| 0 <= i < |actions| && actions[i] == Mark(k.0, k.1);
    }
    if Wanted(actions, k) {
      var i :| 0 <= i < |actions| && Stores(actions[i]) && KeyOf(actions[i]) == k;
      assert actions[i] == Mark(k.0, k.1);
    }
  }

  lemma AsksByPlace(f: Formula, k: Key)
    ensures AsksFor(f, k) <==>
      || (k.0 == LOGO && IsLinkTo(f.logo, k.1))
      || (exists i :: 0 <= i < |f.pages| && ListLinksTo(f.pages[i], k))
      || ListLinksTo(f.elements, k)
  {
    hide IsIn, LinksTo, IsLinkTo;
    if i :| 0 <= i < |f.pages| && ListLinksTo(f.pages[i], k) {
      var e :| IsIn(e, f.pages[i]) && LinksTo(e, k.0, k.1);
      assert IsElementOf(e, f);
    }
    if ListLinksTo(f.elements, k) {
      var e :| IsIn(e, f.elements) && LinksTo(e, k.0, k.1);
      assert IsElementOf(e, f);
    }
  }

  /** ---- which folders it deletes ---- */

  lemma {:induction false} ResetsOfElement(e: Element, n: string)
    ensures Reset(n) in ElementActions(e) <==> e == Other(n) || InPanel(Other(n), e)
    decreases e, 0
  {
    match e
    case Panel(_, es, ts) =>
      ResetsOfElements(es, n);
      ResetsOfElements(ts, n);
    case ImagePicker(folder, choices) => NoResetOfUrls(folder, choices, n);
    case _ =>
  }

  lemma {:induction false} ResetsOfElements(es: seq<Element>, n: string)
    ensures Reset(n) in ElementsActions(es) <==> IsIn(Other(n), es)
    decreases es, 1
  {
    if es != [] {
      ResetsOfElement(es[0], n);
      ResetsOfElements(es[1..], n);
      InFirstOrRest(Other(n), es);
    }
  }

  lemma {:induction false} ResetsOfPages(pages: seq<seq<Element>>, n: string)
    ensures Reset(n) in PagesActions(pages) <==> exists i :: 0 <= i < |pages| && IsIn(Other(n), pages[i])
  {
    hide IsIn;
    if pages != [] {
      ResetsOfElements(pages[0], n);
      ResetsOfPages(pages[1..], n);
      if i :| 0 <= i < |pages| && IsIn(Other(n), pages[i]) {
        assert i > 0 ==> pages[1..][i - 1] == pages[i];
      }
      if i :| 0 <= i < |pages[1..]| && IsIn(Other(n), pages[1..][i]) {
        assert pages[i + 1] == pages[1..][i];
      }
    }
  }

  /** The walk deletes exactly the folders named like an element without attachments. */
  lemma DeletedFoldersAreOfOtherElements(f: Formula, n: string)
    ensures Reset(n) in PlanOf(f).actions <==> IsElementOf(Other(n), f)
  {
    hide IsIn;
    ResetsOfPages(f.pages, n);
    ResetsOfElements(f.elements, n);
  }

  /** No element without attachments is named like a folder that is to hold a file. */
  ghost predicate NamesApart(f: Formula) {
    forall k :: AsksFor(f, k) ==> !IsElementOf(Other(k.0), f)
  }

  lemma NoClashIsNamesApart(f: Formula)
    ensures NoClash(PlanOf(f).actions) <==> NamesApart(f)
  {
    hide PlanOf, AsksFor, IsElementOf;
    var actions := PlanOf(f).actions;
    if NoClash(actions) {
      forall k | AsksFor(f, k) ensures !IsElementOf(Other(k.0), f) {
        WantedIsWhatTheFormulaAsksFor(f, k);
        DeletedFoldersAreOfOtherElements(f, k.0);
        var i :| 0 <= i < |actions| && Stores(actions[i]) && KeyOf(actions[i]) == k;
        forall j | 0 <= j < |actions| ensures actions[j] != Reset(k.0) {
          assert !Clash(actions, i, j);
        }
      }
    }
    if NamesApart(f) {
      forall i, j | 0 <= i < |actions| && 0 <= j < |actions| ensures !Clash(actions, i, j) {
        if Stores(actions[i]) && actions[j].Reset? {
          WantedIsWhatTheFormulaAsksFor(f, KeyOf(actions[i]));
          assert Wanted(actions, KeyOf(actions[i]));
          DeletedFoldersAreOfOtherElements(f, actions[i].folder);
        }
      }
    }
  }

  /** From the formula to the disk: when names are apart, every file that the formula asks for
      and that was there is collected and kept as it was. */
  lemma FilesAskedForAreKept(f: Formula, d0: Disk, order: seq<Event>, w: Walk, k: Key)
    requires PlanOf(f).Ordered() && NamesApart(f) && WalkEnds(PlanOf(f), d0, order, w)
    requires AsksFor(f, k) && k in d0.files
    ensures k in w.refs && k in Sweep(w.disk, w.refs).files && Sweep(w.disk, w.refs).files[k] == d0.files[k]
  {
    hide PlanOf, AsksFor, NamesApart, WalkEnds;
    NoClashIsNamesApart(f);
    WantedIsWhatTheFormulaAsksFor(f, k);
    WantedFilesAreKept(d0, PlanOf(f), order, w, k);
  }

  /** And afterwards the survey's files are exactly the references collected, each of them asked
      for by the formula. */
  lemma OnlyFilesAskedForRemain(f: Formula, d0: Disk, order: seq<Event>, w: Walk)
    requires PlanOf(f).Ordered() && NamesApart(f) && WalkEnds(PlanOf(f), d0, order, w)
    ensures Clean(Sweep(w.disk, w.refs), w.refs)
    ensures forall k :: k in Sweep(w.disk, w.refs).files ==> AsksFor(f, k)
    ensures forall k :: AsksFor(f, k) && k in d0.files ==> k in Sweep(w.disk, w.refs).files
  {
    hide PlanOf, AsksFor, NamesApart, WalkEnds;
    NoClashIsNamesApart(f);
    ApartIsHarmless(PlanOf(f));
    PreProcessKeepsExactlyTheReferences(d0, PlanOf(f), order, w);
    forall k | k in Sweep(w.disk, w.refs).files ensures AsksFor(f, k) {
      WantedIsWhatTheFormulaAsksFor(f, k);
    }
    forall k | AsksFor(f, k) && k in d0.files ensures k in Sweep(w.disk, w.refs).files {
      FilesAskedForAreKept(f, d0, order, w, k);
    }
  }

  lemma ApartIsHarmless(plan: Plan)
    requires plan.Ordered() && NoClash(plan.actions)
    ensures LateResetsAreHarmless(plan)
  {
  }

  /** ---- files just uploaded ---- */

  /** Only action `i` asks for a file of its name. */
  ghost predicate AsksAlone(actions: seq<Action>, i: nat) {
    i < |actions| && Stores(actions[i]) && forall j :: 0 <= j < |actions| && SameFile(actions[j], actions[i]) ==> j == i
  }

  /** The temporary file waits for its action, or has been moved by it. */
  ghost predicate WaitsOrMoved(actions: seq<Action>, w: Walk, i: nat, content: Content)
    requires i < |actions| == |w.pcs| && actions[i].Mark?
  {
    var k := KeyOf(actions[i]);
    if w.pcs[i].Finished? then w.pcs[i] == Finished(true) && k in w.refs && k in w.disk.files && w.disk.files[k] == content
    else k !in w.disk.files && k.1 in w.disk.temp && w.disk.temp[k.1] == content
  }

  lemma {:induction false} RunMovesIt(plan: Plan, w: Walk, order: seq<Event>, f: Walk, i: nat, content: Content)
    requires Fits(plan, w) && Runs(plan, w, order, f) && NoClash(plan.actions) && AsksAlone(plan.actions, i)
    requires ClearTemp !in order && WaitsOrMoved(plan.actions, w, i, content)
    ensures Fits(plan, f) && WaitsOrMoved(plan.actions, f, i, content)
    decreases |order|
  {
    if order != [] {
      assert order[0] in order && ClearTemp !in order[1..];
      StepMovesIt(plan, w, order[0], i, content);
      RunMovesIt(plan, Happen(plan.actions, w, order[0]), order[1..], f, i, content);
    }
  }

  lemma StepMovesIt(plan: Plan, w: Walk, e: Event, i: nat, content: Content)
    requires Fits(plan, w) && Enabled(plan, w, e) && e != ClearTemp && NoClash(plan.actions) && AsksAlone(plan.actions, i)
    requires WaitsOrMoved(plan.actions, w, i, content)
    ensures WaitsOrMoved(plan.actions, Happen(plan.actions, w, e), i, content)
  {
    if e.Move? && e.i != i {
      assert !Clash(plan.actions, i, e.i);
      assert !SameFile(plan.actions[e.i], plan.actions[i]);
    }
  }

  /** An uploaded file that one element alone asks for is in its folder afterwards, with its
      content, unless the temporary folder is emptied meanwhile. */
  lemma UploadedFileIsStored(plan: Plan, d0: Disk, order: seq<Event>, f: Walk, i: nat)
    requires plan.Ordered() && NoClash(plan.actions) && WalkEnds(plan, d0, order, f) && ClearTemp !in order
    requires AsksAlone(plan.actions, i) && KeyOf(plan.actions[i]) !in d0.files && plan.actions[i].file in d0.temp
    ensures var k := KeyOf(plan.actions[i]);
      k in f.refs && k in Sweep(f.disk, f.refs).files && Sweep(f.disk, f.refs).files[k] == d0.temp[plan.actions[i].file]
  {
    RunMovesIt(plan, Begin(d0, plan.actions), order, f, i, d0.temp[plan.actions[i].file]);
  }

  /** ---- running it again ---- */

  /** The action finds nothing to do on this disk. */
  ghost predicate Settled(d: Disk, a: Action) {
    match a
    case Reset(folder) => folder !in d.folders
    case Mark(folder, file) => file == "" || (folder, file) in d.files || file !in d.temp
  }

  ghost predicate Idle(d: Disk, refs: set<Key>, a: Action, pc: Pc) {
    a.Mark? ==>
      match pc
      case Start => true
      case LookInTemp => Stores(a) && KeyOf(a) !in d.files
      case MakeFolder => false
      case MoveFile => false
      case Finished(found) => found == (Stores(a) && KeyOf(a) in d.files) && (found ==> KeyOf(a) in refs)
  }

  ghost predicate IdleInv(d: Disk, actions: seq<Action>, w: Walk) {
    && |w.pcs| == |actions| && w.disk == d && w.refs <= d.files.Keys
    && forall i :: 0 <= i < |actions| ==> Idle(d, w.refs, actions[i], w.pcs[i])
  }

  lemma IdleStep(d: Disk, actions: seq<Action>, w: Walk, i: nat)
    requires d.Tree() && IdleInv(d, actions, w) && i < |actions| && Settled(d, actions[i])
    ensures IdleInv(d, actions, Step(actions, w, i))
  {
    if actions[i].Reset? {
      assert DeleteFolder(d, actions[i].folder).files == d.files;
    }
    forall j | 0 <= j < |actions|
      ensures Idle(d, Step(actions, w, i).refs, actions[j], Step(actions, w, i).pcs[j])
    {
      assert Idle(d, w.refs, actions[j], w.pcs[j]) && Idle(d, w.refs, actions[i], w.pcs[i]);
    }
  }

  lemma {:induction false} IdleRun(d: Disk, plan: Plan, w: Walk, order: seq<Event>, f: Walk)
    requires Fits(plan, w) && d.Tree() && (forall i :: 0 <= i < |plan.actions| ==> Settled(d, plan.actions[i]))
    requires IdleInv(d, plan.actions, w) && Runs(plan, w, order, f) && OnlyMoves(order)
    ensures IdleInv(d, plan.actions, f)
    decreases |order|
  {
    if order != [] {
      IdleStep(d, plan.actions, w, order[0].i);
      IdleRun(d, plan, Happen(plan.actions, w, order[0]), order[1..], f);
    }
  }

  lemma FirstRunSettles(d0: Disk, plan: Plan, order: seq<Event>, f: Walk)
    requires plan.Ordered() && NoClash(plan.actions) && WalkEnds(plan, d0, order, f) && OnlyMoves(order)
    ensures forall i :: 0 <= i < |plan.actions| ==> Settled(Sweep(f.disk, f.refs), plan.actions[i])
    ensures forall k :: k in f.refs ==> Wanted(plan.actions, k)
    ensures var d := Sweep(f.disk, f.refs); d.Tree() && Clean(d, f.refs)
  {
    var actions := plan.actions;
    RunInv(d0, plan, Begin(d0, actions), order, f);
    SweepMeaning(f.disk, f.refs);
    forall i | 0 <= i < |actions| ensures Settled(Sweep(f.disk, f.refs), actions[i]) {
      assert ActionOk(d0, f.disk, f.refs, actions[i], f.pcs[i]) && f.pcs[i].Finished?;
    }
  }

  lemma RunOnSettledDisk(d: Disk, plan: Plan, refs: set<Key>, order: seq<Event>, f: Walk)
    requires plan.Ordered() && Clean(d, refs) && (forall i :: 0 <= i < |plan.actions| ==> Settled(d, plan.actions[i]))
    requires forall k :: k in refs ==> Wanted(plan.actions, k)
    requires WalkEnds(plan, d, order, f) && OnlyMoves(order)
    ensures f.refs == refs && f.disk == d && Sweep(f.disk, f.refs) == d
  {
    var actions := plan.actions;
    IdleRun(d, plan, Begin(d, actions), order, f);
    forall k | k in refs ensures k in f.refs {
      var i :| 0 <= i < |actions| && Stores(actions[i]) && KeyOf(actions[i]) == k;
      assert Idle(d, f.refs, actions[i], f.pcs[i]) && f.pcs[i].Finished?;
    }
    SweepIsStable(d, refs);
  }

  /** A call, and a second one with the returned formula on the disk that the first one left,
      nothing being uploaded meanwhile. */
  ghost predicate TwoCalls(plan: Plan, d0: Disk, order: seq<Event>, f: Walk, order2: seq<Event>, f2: Walk)
    requires plan.Ordered()
  {
    && WalkEnds(plan, d0, order, f) && OnlyMoves(order)
    && WalkEnds(plan, Sweep(f.disk, f.refs), order2, f2) && OnlyMoves(order2)
  }

  ghost predicate SecondWasQuiet(f: Walk, f2: Walk) {
    f2.refs == f.refs && f2.disk == Sweep(f.disk, f.refs)
  }

  /** Without a clash the second call leaves the disk as it is, in every interleaving of both,
      and collects the same references. */
  lemma SecondRunChangesNothing(d0: Disk, plan: Plan, order: seq<Event>, f: Walk, order2: seq<Event>, f2: Walk)
    requires plan.Ordered() && NoClash(plan.actions) && TwoCalls(plan, d0, order, f, order2, f2)
    ensures SecondWasQuiet(f, f2) && Sweep(f2.disk, f2.refs) == Sweep(f.disk, f.refs)
  {
    FirstRunSettles(d0, plan, order, f);
    RunOnSettledDisk(Sweep(f.disk, f.refs), plan, f.refs, order2, f2);
  }

  lemma SweepIsStable(d: Disk, refs: set<Key>)
    requires d.Tree() && Clean(d, refs)
    ensures Sweep(d, refs) == d
  {
    assert Sweep(d, refs).files == d.files;
    assert Sweep(d, refs).folders == d.folders;
  }

  /** ---- clashing names ---- */

  function Rank(pc: Pc): nat {
    match pc
    case Start => 4
    case LookInTemp => 3
    case MakeFolder => 2
    case MoveFile => 1
    case Finished(_) => 0
  }

  function Remaining(pcs: seq<Pc>): nat {
    if pcs == [] then 0 else Rank(pcs[0]) + Remaining(pcs[1..])
  }

  lemma {:induction false} RemainingUpdate(pcs: seq<Pc>, i: nat, pc: Pc)
    requires i < |pcs|
    ensures Remaining(pcs[i := pc]) == Remaining(pcs) - Rank(pcs[i]) + Rank(pc)
  {
    if i > 0 {
      RemainingUpdate(pcs[1..], i - 1, pc);
      assert pcs[i := pc][1..] == pcs[1..][i - 1 := pc];
    } else {
      assert pcs[i := pc][1..] == pcs[1..];
    }
  }

  lemma FirstUnfinished(w: Walk, xs: set<nat>) returns (i: nat)
    requires exists x :: x in xs && x < |w.pcs| && !w.pcs[x].Finished?
    ensures i in xs && i < |w.pcs| && !w.pcs[i].Finished?
    ensures forall x :: x in xs && x < i ==> w.pcs[x].Finished?
  {
    i := 0;
    while !(i in xs && !w.pcs[i].Finished?)
      invariant i < |w.pcs| && forall x :: x in xs && x < i ==> w.pcs[x].Finished?
      invariant exists x :: x in xs && i <= x < |w.pcs| && !w.pcs[x].Finished?
      decreases |w.pcs| - i
    {
      i := i + 1;
    }
  }

  /** With nothing in the temporary folder: no file comes, references stay, and what is not
      there is not found. */
  ghost predicate OnlyLess(actions: seq<Action>, w: Walk, f: Walk)
    requires |actions| == |w.pcs| == |f.pcs|
  {
    && f.disk.temp == map[] && f.disk.files.Keys <= w.disk.files.Keys && w.refs <= f.refs
    && forall k :: k !in w.disk.files && k !in w.refs && !FoundAt(actions, w, k) ==> k !in f.refs && !FoundAt(actions, f, k)
  }

  ghost predicate FoundAt(actions: seq<Action>, w: Walk, k: Key)
    requires |actions| == |w.pcs|
  {
    exists i :: 0 <= i < |actions| && actions[i].Mark? && KeyOf(actions[i]) == k && w.pcs[i] == Finished(true)
  }

  lemma StepOnlyLess(actions: seq<Action>, w: Walk, i: nat)
    requires i < |actions| == |w.pcs| && w.disk.temp == map[]
    ensures OnlyLess(actions, w, Step(actions, w, i))
  {
    var t := Step(actions, w, i);
    forall k | k !in w.disk.files && k !in w.refs && !FoundAt(actions, w, k)
      ensures k !in t.refs && !FoundAt(actions, t, k)
    {
      if actions[i].Mark? && KeyOf(actions[i]) == k {
        assert w.pcs[i] != Finished(true);
      }
    }
  }

  /** Every set of actions that is closed under waiting can be brought to its end. */
  lemma {:induction false} FinishSet(plan: Plan, w: Walk, xs: set<nat>) returns (order: seq<Event>, f: Walk)
    requires Fits(plan, w) && forall x :: x in xs ==> x < |w.pcs| && plan.after[x] <= xs
    ensures Runs(plan, w, order, f) && OnlyMoves(order) && Fits(plan, f)
    ensures forall e :: e in order ==> e.i in xs
    ensures forall x :: 0 <= x < |w.pcs| ==> if x in xs then f.pcs[x].Finished? else f.pcs[x] == w.pcs[x]
    ensures w.disk.temp == map[] ==> OnlyLess(plan.actions, w, f)
    decreases Remaining(w.pcs)
  {
    if forall x :: x in xs ==> w.pcs[x].Finished? {
      order, f := [], w;
    } else {
      var i := FirstUnfinished(w, xs);
      assert plan.OrderedAt(i);
      var t := Step(plan.actions, w, i);
      RemainingUpdate(w.pcs, i, t.pcs[i]);
      if w.disk.temp == map[] {
        StepOnlyLess(plan.actions, w, i);
      }
      order, f := FinishSet(plan, t, xs);
      assert ([Move(i)] + order)[1..] == order;
      order := [Move(i)] + order;
    }
  }

  /** Every walk can be brought to its end, and uploads and the clean-up of the temporary folder
      can come at any moment. */
  lemma EveryWalkCanFinish(plan: Plan, w: Walk) returns (order: seq<Event>, f: Walk)
    requires Fits(plan, w)
    ensures Runs(plan, w, order, f) && OnlyMoves(order) && Fits(plan, f) && f.AllFinished()
    ensures w.disk.temp == map[] ==> OnlyLess(plan.actions, w, f)
    ensures Enabled(plan, w, ClearTemp) && forall file, content :: IsNewName(plan.actions, file) ==> Enabled(plan, w, Upload(file, content))
  {
    var all := Range(0, |w.pcs|);
    forall x | x in all ensures x < |w.pcs| && plan.after[x] <= all {
      assert plan.OrderedAt(x);
    }
    order, f := FinishSet(plan, w, all);
  }

  lemma {:induction false} RunsConcat(plan: Plan, w: Walk, first: seq<Event>, mid: Walk, rest: seq<Event>, f: Walk)
    requires Fits(plan, w) && Runs(plan, w, first, mid) && Fits(plan, mid) && Runs(plan, mid, rest, f)
    ensures Runs(plan, w, first + rest, f)
    decreases |first|
  {
    if first == [] {
      assert first + rest == rest;
    } else {
      assert (first + rest)[1..] == first[1..] + rest;
      RunsConcat(plan, Happen(plan.actions, w, first[0]), first[1..], mid, rest, f);
    }
  }

  /** A deletion still to come takes the file, and without uploads it does not come back. */
  lemma {:induction false} ResetRemoves(plan: Plan, w: Walk, order: seq<Event>, f: Walk, j: nat, k: Key)
    requires Fits(plan, w) && Runs(plan, w, order, f) && OnlyMoves(order) && w.disk.temp == map[]
    requires j < |plan.actions| && plan.actions[j] == Reset(k.0) && (w.pcs[j].Finished? ==> k !in w.disk.files)
    ensures j < |f.pcs| && (f.pcs[j].Finished? ==> k !in f.disk.files)
    decreases |order|
  {
    if order != [] {
      StepOnlyLess(plan.actions, w, order[0].i);
      ResetRemoves(plan, Happen(plan.actions, w, order[0]), order[1..], f, j, k);
    }
  }

  /** A file in the temporary folder is moved into place and collected in four stretches. */
  lemma MoveIn(plan: Plan, w: Walk, i: nat) returns (f: Walk)
    requires Fits(plan, w) && i < |w.pcs| && w.pcs[i].Start? && AllEnded(plan, w, plan.after[i])
    requires Stores(plan.actions[i]) && KeyOf(plan.actions[i]) !in w.disk.files && plan.actions[i].file in w.disk.temp
    ensures Fits(plan, f) && Runs(plan, w, [Move(i), Move(i), Move(i), Move(i)], f)
    ensures KeyOf(plan.actions[i]) in f.refs && KeyOf(plan.actions[i]) in f.disk.files
    ensures f.pcs == w.pcs[i := Finished(true)] && f.disk.temp == w.disk.temp - {plan.actions[i].file}
  {
    var a := plan.actions;
    var w1 := Step(a, w, i);
    var w2 := Step(a, w1, i);
    var w3 := Step(a, w2, i);
    f := Step(a, w3, i);
    var m := Move(i);
    assert [m, m, m, m][1..] == [m, m, m] && [m, m, m][1..] == [m, m] && [m, m][1..] == [m] && [m][1..] == [];
    assert Runs(plan, f, [], f);
    assert Runs(plan, w3, [m], f);
    assert Runs(plan, w2, [m, m], f);
    assert Runs(plan, w1, [m, m, m], f);
    assert f.pcs == w.pcs[i := Finished(true)];
  }

  /** The temporary file `file` is still there: the actions of `xs` that ask for a file of that
      name have theirs in place. */
  ghost predicate Spared(actions: seq<Action>, w: Walk, xs: set<nat>, file: string, k: Key)
    requires |actions| == |w.pcs|
  {
    && w.disk.temp.Keys == {file} && k !in w.disk.files
    && forall m :: m in xs && m < |actions| && actions[m].Mark? && actions[m].file == file ==>
         KeyOf(actions[m]) in w.disk.files && (w.pcs[m].Start? || w.pcs[m].Finished?)
  }

  /** No folder that is to hold a file of this name, for an action of `xs`, is deleted. */
  ghost predicate UnclashedIn(actions: seq<Action>, xs: set<nat>, file: string) {
    forall m, j :: m in xs && m < |actions| && 0 <= j < |actions| && actions[m].Mark? && actions[m].file == file ==>
      !Clash(actions, m, j)
  }

  lemma {:induction false} RunSpares(plan: Plan, w: Walk, order: seq<Event>, f: Walk, xs: set<nat>, file: string, k: Key)
    requires Fits(plan, w) && Runs(plan, w, order, f) && OnlyMoves(order) && forall e :: e in order ==> e.i in xs
    requires Spared(plan.actions, w, xs, file, k) && file != "" && k.1 == file
    requires UnclashedIn(plan.actions, xs, file)
    ensures Fits(plan, f) && Spared(plan.actions, f, xs, file, k)
    decreases |order|
  {
    if order != [] {
      assert order[0] in order;
      var t := Happen(plan.actions, w, order[0]);
      StepSpares(plan.actions, w, order[0].i, xs, file, k);
      assert forall e :: e in order[1..] ==> e in order;
      RunSpares(plan, t, order[1..], f, xs, file, k);
    }
  }

  lemma StepSpares(actions: seq<Action>, w: Walk, i: nat, xs: set<nat>, file: string, k: Key)
    requires |actions| == |w.pcs| && i in xs && i < |actions|
    requires Spared(actions, w, xs, file, k) && file != "" && k.1 == file
    requires UnclashedIn(actions, xs, file)
    ensures Spared(actions, Step(actions, w, i), xs, file, k)
  {
    var t := Step(actions, w, i);
    forall m | m in xs && m < |actions| && actions[m].Mark? && actions[m].file == file
      ensures KeyOf(actions[m]) in t.disk.files
    {
      assert !Clash(actions, m, i);
    }
  }

  /** A disk on which the actions before `i` find their files, so that the temporary one is
      left for `i`. */
  lemma FileIsLeftFor(plan: Plan, i: nat) returns (d0: Disk, order: seq<Event>, f: Walk)
    requires plan.Ordered() && i < |plan.actions| && Stores(plan.actions[i])
    requires exists j :: 0 <= j < |plan.actions| && Clash(plan.actions, i, j)
    requires UnclashedIn(plan.actions, plan.after[i], plan.actions[i].file)
    ensures d0.Tree() && Fits(plan, f) && Runs(plan, Begin(d0, plan.actions), order, f) && OnlyMoves(order)
    ensures f.pcs[i].Start? && AllEnded(plan, f, plan.after[i])
    ensures forall x :: 0 <= x < |f.pcs| && x !in plan.after[i] ==> f.pcs[x].Start?
    ensures f.disk.temp.Keys == {plan.actions[i].file} && KeyOf(plan.actions[i]) !in f.disk.files
  {
    var actions, k, file, xs := plan.actions, KeyOf(plan.actions[i]), plan.actions[i].file, plan.after[i];
    assert plan.OrderedAt(i);
    var same := set m | m in xs && m < |actions| && actions[m].Mark? && actions[m].file == file :: KeyOf(actions[m]);
    if k in same {
      var m :| m in xs && m < |actions| && actions[m].Mark? && actions[m].file == file && KeyOf(actions[m]) == k;
      var j :| 0 <= j < |actions| && Clash(actions, i, j);
      assert Clash(actions, m, j);
    }
    d0 := Disk(map x | x in same :: 0, FoldersOf(same), true, map[file := 1]);
    order, f := FinishSet(plan, Begin(d0, actions), xs);
    RunSpares(plan, Begin(d0, actions), order, f, xs, file, k);
  }

  /** A collected file whose folder is still to be deleted is missing in the end. */
  lemma LoseCollected(plan: Plan, d0: Disk, first: seq<Event>, w: Walk, j: nat, k: Key) returns (order: seq<Event>, f: Walk)
    requires plan.Ordered() && d0.Tree() && Fits(plan, w) && Runs(plan, Begin(d0, plan.actions), first, w)
    requires w.disk.temp == map[] && k in w.refs
    requires j < |plan.actions| && plan.actions[j] == Reset(k.0) && !w.pcs[j].Finished?
    ensures WalkEnds(plan, d0, order, f) && !Clean(Sweep(f.disk, f.refs), f.refs)
  {
    var rest;
    rest, f := EveryWalkCanFinish(plan, w);
    ResetRemoves(plan, w, rest, f, j, k);
    RunsConcat(plan, Begin(d0, plan.actions), first, w, rest, f);
    order := first + rest;
    assert k in f.refs && k !in Sweep(f.disk, f.refs).files;
  }

  /** A file stays as long as nothing deletes its folder. */
  lemma {:induction false} RunKeepsFile(plan: Plan, w: Walk, order: seq<Event>, f: Walk, xs: set<nat>, k: Key)
    requires Fits(plan, w) && Runs(plan, w, order, f) && OnlyMoves(order) && forall e :: e in order ==> e.i in xs
    requires forall l :: l in xs && l < |plan.actions| ==> plan.actions[l] != Reset(k.0)
    requires k in w.disk.files
    ensures k in f.disk.files
    decreases |order|
  {
    if order != [] {
      assert order[0] in order && forall e :: e in order[1..] ==> e in order;
      RunKeepsFile(plan, Happen(plan.actions, w, order[0]), order[1..], f, xs, k);
    }
  }

  /** When the folder is not deleted before: the file is on the disk, is collected, and its
      folder is deleted. */
  lemma LateResetLosesAStoredFile(plan: Plan, i: nat, j: nat) returns (d0: Disk, order: seq<Event>, f: Walk)
    requires plan.Ordered() && i < |plan.actions| && j < |plan.actions|
    requires Clash(plan.actions, i, j) && j !in plan.after[i] && !IsEmptied(plan, i)
    ensures WalkEnds(plan, d0, order, f) && !Clean(Sweep(f.disk, f.refs), f.refs)
  {
    var k := KeyOf(plan.actions[i]);
    d0 := Disk(map[k := 0], {k.0}, true, map[]);
    var w0 := Begin(d0, plan.actions);
    assert plan.OrderedAt(i);
    var first, w1 := FinishSet(plan, w0, plan.after[i]);
    forall l | l in plan.after[i] && l < |plan.actions| ensures plan.actions[l] != Reset(k.0) {
      assert !Clash(plan.actions, i, l);
    }
    RunKeepsFile(plan, w0, first, w1, plan.after[i], k);
    var w2 := Step(plan.actions, w1, i);
    assert w2.pcs[i] == Finished(true) && k in w2.refs && w2.disk == w1.disk;
    assert [Move(i)][1..] == [] && Runs(plan, w2, [], w2);
    RunsConcat(plan, w0, first, w1, [Move(i)], w2);
    order, f := LoseCollected(plan, d0, first + [Move(i)], w2, j, k);
  }

  /** When the file is not used up before: it is in the temporary folder, is moved and
      collected, and its folder is deleted. */
  lemma LateResetLosesAMovedFile(plan: Plan, i: nat, j: nat) returns (d0: Disk, order: seq<Event>, f: Walk)
    requires plan.Ordered() && i < |plan.actions| && j < |plan.actions|
    requires Clash(plan.actions, i, j) && j !in plan.after[i]
    requires UnclashedIn(plan.actions, plan.after[i], plan.actions[i].file)
    ensures WalkEnds(plan, d0, order, f) && !Clean(Sweep(f.disk, f.refs), f.refs)
  {
    var first, w1;
    d0, first, w1 := FileIsLeftFor(plan, i);
    var w2 := MoveIn(plan, w1, i);
    assert w2.disk.temp == map[];
    var moves := [Move(i), Move(i), Move(i), Move(i)];
    RunsConcat(plan, Begin(d0, plan.actions), first, w1, moves, w2);
    order, f := LoseCollected(plan, d0, first + moves, w2, j, KeyOf(plan.actions[i]));
  }

  /** With a deletion that need not come first, some walk without any upload finds and collects
      a file whose folder is deleted afterwards, unless the file is lost. */
  lemma LateResetLosesAFile(plan: Plan, i: nat, j: nat) returns (d0: Disk, order: seq<Event>, f: Walk)
    requires plan.Ordered() && i < |plan.actions| && j < |plan.actions|
    requires Clash(plan.actions, i, j) && j !in plan.after[i] && !IsLost(plan, i)
    ensures WalkEnds(plan, d0, order, f) && !Clean(Sweep(f.disk, f.refs), f.refs)
  {
    var actions, xs, file := plan.actions, plan.after[i], plan.actions[i].file;
    if !IsEmptied(plan, i) {
      d0, order, f := LateResetLosesAStoredFile(plan, i, j);
    } else if UnclashedIn(actions, xs, file) {
      d0, order, f := LateResetLosesAMovedFile(plan, i, j);
    } else {
      var p, r :| p in xs && p < |actions| && 0 <= r < |actions| && actions[p].Mark? && actions[p].file == file && Clash(actions, p, r);
      assert SameFile(actions[p], actions[i]) && !IsEmptied(plan, p);
      d0, order, f := LateResetLosesAStoredFile(plan, p, r);
    }
  }

  ghost predicate AlwaysClean(plan: Plan)
    requires plan.Ordered()
  {
    forall d0, order, f :: WalkEnds(plan, d0, order, f) ==> Clean(Sweep(f.disk, f.refs), f.refs)
  }

  /** The files are exactly the references for every disk, every interleaving that the order
      of the walk allows and all uploads meanwhile, if and only if, of every file that is to be
      in a folder which may be deleted beside or after its look-up, it is certain that it can be
      found nowhere. */
  lemma CleanIffLateResetsAreHarmless(plan: Plan)
    requires plan.Ordered()
    ensures AlwaysClean(plan) <==> LateResetsAreHarmless(plan)
  {
    if LateResetsAreHarmless(plan) {
      forall d0, order, f | WalkEnds(plan, d0, order, f)
        ensures Clean(Sweep(f.disk, f.refs), f.refs)
      {
        PreProcessKeepsExactlyTheReferences(d0, plan, order, f);
      }
    } else {
      var i, j :| 0 <= i < |plan.actions| && 0 <= j < |plan.actions| && Clash(plan.actions, i, j) &&
        j !in plan.after[i] && !IsLost(plan, i);
      var d0, order, f := LateResetLosesAFile(plan, i, j);
      assert WalkEnds(plan, d0, order, f);
    }
  }

  /** A deletion that comes first deletes a file that is wanted and there, in every walk. */
  lemma ClashDeletesAWantedFile(plan: Plan, i: nat, j: nat) returns (d0: Disk, order: seq<Event>, f: Walk)
    requires plan.Ordered() && i < |plan.actions| && j < |plan.actions| && Clash(plan.actions, i, j)
    ensures WalkEnds(plan, d0, order, f)
    ensures var k := KeyOf(plan.actions[i]); Wanted(plan.actions, k) && k in d0.files && k !in Sweep(f.disk, f.refs).files
  {
    var k := KeyOf(plan.actions[i]);
    d0 := Disk(map[k := 0], {k.0}, true, map[]);
    order, f := EveryWalkCanFinish(plan, Begin(d0, plan.actions));
    ResetRemoves(plan, Begin(d0, plan.actions), order, f, j, k);
  }

  ghost predicate AlwaysKept(plan: Plan)
    requires plan.Ordered()
  {
    forall d0, order, f, k :: WalkEnds(plan, d0, order, f) && Wanted(plan.actions, k) && k in d0.files ==>
      k in Sweep(f.disk, f.refs).files
  }

  /** Every file that the formula asks for and that is there is kept, for every disk and walk,
      if and only if no element without attachments has the name of a folder that holds some,
      wherever in the formula the two are. */
  lemma KeptIffNoClash(plan: Plan)
    requires plan.Ordered()
    ensures AlwaysKept(plan) <==> NoClash(plan.actions)
  {
    if NoClash(plan.actions) {
      forall d0, order, f, k | WalkEnds(plan, d0, order, f) && Wanted(plan.actions, k) && k in d0.files
        ensures k in Sweep(f.disk, f.refs).files
      {
        WantedFilesAreKept(d0, plan, order, f, k);
      }
    } else {
      var i, j :| 0 <= i < |plan.actions| && 0 <= j < |plan.actions| && Clash(plan.actions, i, j);
      var d0, order, f := ClashDeletesAWantedFile(plan, i, j);
      assert Wanted(plan.actions, KeyOf(plan.actions[i]));
    }
  }

  /** The two conditions differ: a page is walked before the elements outside of pages, so a
      deletion there comes first.  The walk then ends clean, but may delete a wanted file. */
  lemma ResetOnAPageComesFirst(name: string, link: string)
    requires link != "" && LastSegment(link) != ""
    ensures var plan := PlanOf(Formula("", [[Other(name)]], [Image(name, link)]));
      plan.Ordered() && AlwaysClean(plan) && !AlwaysKept(plan)
  {
    var f := Formula("", [[Other(name)]], [Image(name, link)]);
    var plan := PlanOf(f);
    PlanIsOrdered(f);
    assert f.pages[0][1..] == [] && f.pages[1..] == [] && f.elements[1..] == [];
    assert ElementsActions(f.pages[0]) == [Reset(name)] && PagesActions(f.pages) == [Reset(name)];
    assert ElementsActions(f.elements) == [Mark(name, LastSegment(link))];
    assert plan.actions == [Reset(name), Mark(name, LastSegment(link))];
    assert |PagesWaits(f.pages, 0, Range(0, 0))| == 1;
    assert ElementWaits(f.elements[0], 1, Range(0, 1)) == [Range(0, 1)];
    assert ElementsWaits(f.elements, 1, Range(0, 1)) == [Range(0, 1)];
    assert plan.after[1] == Range(0, 1);
    assert Clash(plan.actions, 1, 0);
    CleanIffLateResetsAreHarmless(plan);
    KeptIffNoClash(plan);
  }

  /** A deletion may run beside a look-up and still do no harm: here both folders are emptied
      on the page, so the first image takes the temporary file and the second finds none. */
  lemma FirstImageUsesTheFileUp(a: string, b: string, link: string)
    requires a != b && link != "" && LastSegment(link) != ""
    ensures var plan := PlanOf(TwoImages(a, b, link));
      plan.Ordered() && |plan.actions| == 5 && Clash(plan.actions, 3, 4) && 4 !in plan.after[3] && AlwaysClean(plan)
  {
    hide PlanOf, AlwaysClean, IsEmptied, IsUsedUp;
    var f, file := TwoImages(a, b, link), LastSegment(link);
    var plan := PlanOf(f);
    PlanIsOrdered(f);
    TwoImagesPlan(a, b, link);
    assert plan.actions == [Reset(a), Reset(b), Mark(b, file), Mark(a, file), Reset(a)];
    ClashEmpties(plan, 2, 1);
    ClashEmpties(plan, 3, 0);
    EmptiedUsesUp(plan, 3, 2);
    assert forall i, j :: 0 <= i < 5 && 0 <= j < 5 && Clash(plan.actions, i, j) && j !in plan.after[i] ==> i == 3;
    CleanIffLateResetsAreHarmless(plan);
  }

  lemma ClashEmpties(plan: Plan, i: nat, l: nat)
    requires plan.Ordered() && i < |plan.actions| && l < |plan.actions| && Clash(plan.actions, i, l) && l in plan.after[i]
    ensures IsEmptied(plan, i)
  {
  }

  lemma EmptiedUsesUp(plan: Plan, i: nat, p: nat)
    requires plan.Ordered() && i < |plan.actions| && p < |plan.actions| && p in plan.after[i]
    requires IsEmptied(plan, p) && SameFile(plan.actions[p], plan.actions[i])
    ensures IsUsedUp(plan, i)
  {
  }

  function TwoImages(a: string, b: string, link: string): Formula {
    Formula("", [[Other(a), Other(b)]], [Panel("panel", [Image(b, link)], [Image(a, link), Other(a)])])
  }

  lemma TwoImagesPlan(a: string, b: string, link: string)
    requires link != ""
    ensures var file := LastSegment(link);
      PlanOf(TwoImages(a, b, link)) ==
      Plan([Reset(a), Reset(b), Mark(b, file), Mark(a, file), Reset(a)],
           [{}, {}, Range(0, 2), Range(0, 2) + Range(2, 3), Range(0, 2) + Range(2, 3)])
  {
    hide PagesActions, ElementsActions, PagesWaits, ElementsWaits, LastSegment;
    TwoImagesActions(a, b, link);
    TwoImagesWaits(a, b, link);
  }

  lemma TwoImagesActions(a: string, b: string, link: string)
    requires link != ""
    ensures var (f, file) := (TwoImages(a, b, link), LastSegment(link));
      && MarkUrl(LOGO, f.logo) == [] && PagesActions(f.pages) == [Reset(a), Reset(b)]
      && ElementsActions(f.elements) == [Mark(b, file), Mark(a, file), Reset(a)]
  {
    hide LastSegment;
    var f, file := TwoImages(a, b, link), LastSegment(link);
    var panel := f.elements[0];
    assert f.pages[1..] == [] && f.elements[1..] == [];
    assert f.pages[0][1..] == [Other(b)] && [Other(b)][1..] == [];
    assert ElementsActions([Other(b)]) == [Reset(b)];
    assert ElementsActions(f.pages[0]) == [Reset(a)] + [Reset(b)];
    assert panel.elements[1..] == [] && panel.templateElements[1..] == [Other(a)] && [Other(a)][1..] == [];
    assert ElementsActions(panel.elements) == [Mark(b, file)];
    assert ElementsActions(panel.templateElements) == [Mark(a, file)] + [Reset(a)];
  }

  lemma TwoImagesWaits(a: string, b: string, link: string)
    requires link != ""
    ensures var f := TwoImages(a, b, link);
      && PagesWaits(f.pages, 0, Range(0, 0)) == [{}, {}]
      && ElementsWaits(f.elements, 2, Range(0, 2)) == [Range(0, 2), Range(0, 2) + Range(2, 3), Range(0, 2) + Range(2, 3)]
  {
    var f := TwoImages(a, b, link);
    var panel, all := f.elements[0], Range(0, 2) + Range(2, 3);
    assert f.pages[1..] == [] && f.pages[0][1..] == [Other(b)] && f.pages[0][1..][1..] == [] && f.elements[1..] == [];
    assert panel.elements[1..] == [] && panel.templateElements[1..] == [Other(a)] && [Other(a)][1..] == [];
    assert Range(0, 0) == {};
    assert ElementWaits(Other(a), 0, {}) == [{}] && ElementWaits(Other(b), 1, {}) == [{}];
    assert ElementsWaits([Other(b)], 1, {}) == [{}];
    assert ElementsWaits(f.pages[0], 0, {}) == [{}, {}];
    assert ElementsWaits(panel.elements, 2, Range(0, 2)) == [Range(0, 2)];
    assert ElementsWaits([Other(a)], 4, all) == [all];
    assert ElementsWaits(panel.templateElements, 3, all) == [all, all];
    assert ElementWaits(panel, 2, Range(0, 2)) == [Range(0, 2), all, all];
  }

  /** ---- exactly when a second call is quiet ---- */

  /** With a clash, some first call leaves a file that the second one deletes or misses. */
  lemma ClashMakesSecondCallLoud(plan: Plan, i: nat, j: nat)
    returns (d0: Disk, order: seq<Event>, f: Walk, order2: seq<Event>, f2: Walk)
    requires plan.Ordered() && i < |plan.actions| && j < |plan.actions| && Clash(plan.actions, i, j)
    requires forall m, l :: 0 <= m < i && 0 <= l < |plan.actions| ==> !Clash(plan.actions, m, l)
    ensures TwoCalls(plan, d0, order, f, order2, f2) && !SecondWasQuiet(f, f2)
  {
    assert plan.OrderedAt(i);
    var first, w1;
    d0, first, w1 := FileIsLeftFor(plan, i);
    var w2 := MoveIn(plan, w1, i);
    assert w2.disk.temp == map[];
    var moves := [Move(i), Move(i), Move(i), Move(i)];
    var rest;
    rest, f := EveryWalkCanFinish(plan, w2);
    RunsConcat(plan, w1, moves, w2, rest, f);
    RunsConcat(plan, Begin(d0, plan.actions), first, w1, moves + rest, f);
    order := first + (moves + rest);
    RunTree(plan, Begin(d0, plan.actions), order, f);
    order2, f2 := SecondCallIsLoud(plan, f, j, KeyOf(plan.actions[i]));
  }

  lemma SecondCallIsLoud(plan: Plan, f: Walk, j: nat, k: Key) returns (order2: seq<Event>, f2: Walk)
    requires plan.Ordered() && f.disk.Tree() && f.disk.temp == map[] && k in f.refs
    requires j < |plan.actions| && plan.actions[j] == Reset(k.0)
    ensures WalkEnds(plan, Sweep(f.disk, f.refs), order2, f2) && OnlyMoves(order2) && !SecondWasQuiet(f, f2)
  {
    var s1 := Sweep(f.disk, f.refs);
    SweepMeaning(f.disk, f.refs);
    var w := Begin(s1, plan.actions);
    order2, f2 := EveryWalkCanFinish(plan, w);
    ResetRemoves(plan, w, order2, f2, j, k);
    if k !in s1.files {
      assert !FoundAt(plan.actions, w, k);
    }
  }

  lemma {:induction false} RunTree(plan: Plan, w: Walk, order: seq<Event>, f: Walk)
    requires Fits(plan, w) && Runs(plan, w, order, f) && w.disk.Tree()
    ensures f.disk.Tree()
    decreases |order|
  {
    if order != [] {
      RunTree(plan, Happen(plan.actions, w, order[0]), order[1..], f);
    }
  }

  lemma {:induction false} FirstClash(actions: seq<Action>, n: nat) returns (i: nat, j: nat)
    requires n <= |actions| && forall m, l :: 0 <= m < n && 0 <= l < |actions| ==> !Clash(actions, m, l)
    requires !NoClash(actions)
    ensures i < |actions| && j < |actions| && Clash(actions, i, j)
    ensures forall m, l :: 0 <= m < i && 0 <= l < |actions| ==> !Clash(actions, m, l)
    decreases |actions| - n
  {
    if l :| n < |actions| && 0 <= l < |actions| && Clash(actions, n, l) {
      i, j := n, l;
    } else {
      i, j := FirstClash(actions, n + 1);
    }
  }

  ghost predicate SecondAlwaysQuiet(plan: Plan)
    requires plan.Ordered()
  {
    forall d0, order, f, order2, f2 :: TwoCalls(plan, d0, order, f, order2, f2) ==> SecondWasQuiet(f, f2)
  }

  /** A second call is quiet, for every disk and every interleaving of both, if and only if no
      names clash. */
  lemma SecondQuietIffNoClash(plan: Plan)
    requires plan.Ordered()
    ensures SecondAlwaysQuiet(plan) <==> NoClash(plan.actions)
  {
    if NoClash(plan.actions) {
      forall d0, order, f, order2, f2 | TwoCalls(plan, d0, order, f, order2, f2)
        ensures SecondWasQuiet(f, f2)
      {
        SecondRunChangesNothing(d0, plan, order, f, order2, f2);
      }
    } else {
      var i, j := FirstClash(plan.actions, 0);
      var d0, order, f, order2, f2 := ClashMakesSecondCallLoud(plan, i, j);
      assert TwoCalls(plan, d0, order, f, order2, f2);
    }
  }

  /** ---- the service ---- */

  /** The sweep when it has dealt with some question folders only. */
  function SweepOnly(d: Disk, refs: set<Key>, done: set<string>): Disk {
    var files := map k | k in d.files && (k.0 in done ==> k in refs) :: d.files[k];
    d.(files := files, folders := (d.folders - done) + d.folders * done * FoldersOf(files.Keys))
  }

  lemma SweepMore(d: Disk, refs: set<Key>, done: set<string>, folder: string)
    requires folder !in done
    ensures SweepOnly(SweepOnly(d, refs, done), refs, {folder}) == SweepOnly(d, refs, done + {folder})
  {
    var a, b := SweepOnly(SweepOnly(d, refs, done), refs, {folder}), SweepOnly(d, refs, done + {folder});
    assert a.files == b.files;
    forall f ensures f in a.folders <==> f in b.folders {
      if f in done {
        assert f in FoldersOf(b.files.Keys) <==> f in FoldersOf(SweepOnly(d, refs, done).files.Keys);
      }
    }
  }

  /** ---- the names of uploads ---- */

  function Decimal(n: nat): (r: string)
    ensures r != "" && forall i :: 0 <= i < |r| ==> IsDigit(r[i])
  {
    (if n < 10 then "" else Decimal(n / 10)) + [['0', '1', '2', '3', '4', '5', '6', '7', '8', '9'][n % 10]]
  }

  predicate IsDigit(c: char) { '0' <= c <= '9' }

  /** What `extname` gives. */
  predicate IsExtension(s: string) { s == "" || s[0] == '.' }

  /** The name the server makes up: the time, a random number and the extension. */
  function UploadName(now: nat, random: nat, extension: string): string {
    Decimal(now) + "-" + Decimal(random) + extension
  }

  lemma {:induction false} DecimalIsInjective(a: nat, b: nat)
    requires Decimal(a) == Decimal(b)
    ensures a == b
  {
    var x, y := Decimal(a), Decimal(b);
    assert x[..|x| - 1] == (if a < 10 then "" else Decimal(a / 10));
    assert y[..|y| - 1] == (if b < 10 then "" else Decimal(b / 10));
    assert x[|x| - 1] == y[|y| - 1];
    if a >= 10 && b >= 10 {
      DecimalIsInjective(a / 10, b / 10);
    }
  }

  lemma NotLonger(a: string, rest: string, b: string, rest2: string)
    requires a + rest == b + rest2 && forall i :: 0 <= i < |b| ==> IsDigit(b[i])
    requires rest != "" ==> !IsDigit(rest[0])
    ensures |b| <= |a|
  {
    var c := a + rest;
    assert rest != "" ==> c[|a|] == rest[0];
    assert forall i :: 0 <= i < |b| ==> c[i] == b[i];
  }

  lemma DigitsEnd(a: string, rest: string, b: string, rest2: string)
    requires a + rest == b + rest2 && (forall i :: 0 <= i < |a| ==> IsDigit(a[i])) && (forall i :: 0 <= i < |b| ==> IsDigit(b[i]))
    requires (rest != "" ==> !IsDigit(rest[0])) && (rest2 != "" ==> !IsDigit(rest2[0]))
    ensures a == b && rest == rest2
  {
    NotLonger(a, rest, b, rest2);
    NotLonger(b, rest2, a, rest);
    assert a == (a + rest)[..|a|] == b;
    assert rest == (a + rest)[|a|..] == rest2;
  }

  /** The name tells when the file was uploaded: one that a client has been told is not given
      to an upload at another time. */
  lemma UploadNameTellsTheTime(now: nat, random: nat, extension: string, now2: nat, random2: nat, extension2: string)
    requires IsExtension(extension) && IsExtension(extension2)
    requires UploadName(now, random, extension) == UploadName(now2, random2, extension2)
    ensures now == now2 && random == random2 && extension == extension2
  {
    hide Decimal;
    var rest, rest2 := Decimal(random) + extension, Decimal(random2) + extension2;
    assert UploadName(now, random, extension) == Decimal(now) + ("-" + rest);
    assert UploadName(now2, random2, extension2) == Decimal(now2) + ("-" + rest2);
    DigitsEnd(Decimal(now), "-" + rest, Decimal(now2), "-" + rest2);
    assert rest == ("-" + rest)[1..] == ("-" + rest2)[1..] == rest2;
    DigitsEnd(Decimal(random), extension, Decimal(random2), extension2);
    DecimalIsInjective(now, now2);
    DecimalIsInjective(random, random2);
  }

  class AttachmentStore {
    var files: map<Key, Content>
    var folders: set<string>
    var surveyFolder: bool
    var temp: map<string, Content>
    var includedFileNames: set<Key>

    ghost function Contents(): Disk
      reads this
    {
      Disk(files, folders, surveyFolder, temp)
    }

    constructor (d: Disk)
      ensures Contents() == d && includedFileNames == {}
    {
      files, folders, surveyFolder, temp := d.files, d.folders, d.surveyFolder, d.temp;
      includedFileNames := {};
    }

    /** The user uploads a temporary file, which may happen while the walk runs, and is told the
        name that the server has made up for it. */
    method ReceiveUpload(now: nat, random: nat, extension: string, content: Content) returns (file: string)
      modifies this
      ensures file == UploadName(now, random, extension)
      ensures Contents() == old(Contents()).(temp := old(temp)[file := content]) && includedFileNames == old(includedFileNames)
    {
      file := UploadName(now, random, extension);
      temp := temp[file := content];
    }

    method CleanupTemporaryFiles()
      modifies this
      ensures Contents() == old(Contents()).(temp := map[]) && includedFileNames == old(includedFileNames)
    {
      temp := map[];
    }

    /** `removeAttachmentForOtherQuestionTypes` */
    method DeleteDirectory(folder: string)
      modifies this
      ensures Contents() == DeleteFolder(old(Contents()), folder) && includedFileNames == old(includedFileNames)
    {
      files := map k | k in files && k.0 != folder :: files[k];
      folders := folders - {folder};
    }

    /** One stretch of `processUrl`, with the collection of the name in its caller. */
    method ProcessUrl(folder: string, file: string, pc: Pc) returns (next: Pc)
      modifies this
      ensures (Contents(), next) == Act(old(Contents()), Mark(folder, file), pc)
      ensures includedFileNames == old(includedFileNames) + (if next == Finished(true) then {(folder, file)} else {})
    {
      match pc {
        case Start =>
          next := if file == "" then Finished(false)
                  else if (folder, file) in files then Finished(true)
                  else LookInTemp;
        case LookInTemp =>
          next := if file in temp then MakeFolder else Finished(false);
        case MakeFolder =>
          folders, surveyFolder := folders + {folder}, true;
          next := MoveFile;
        case MoveFile =>
          if file in temp {
            files := files[(folder, file) := temp[file]];
            folders, surveyFolder := folders + {folder}, true;
            temp := temp - {file};
            next := Finished(true);
          } else {
            next := Finished(false);
          }
        case Finished(_) =>
          next := pc;
      }
      if next == Finished(true) {
        includedFileNames := includedFileNames + {(folder, file)};
      }
    }

    method CleanupQuestionFolder(folder: string, referenced: set<Key>)
      modifies this
      ensures Contents() == SweepOnly(old(Contents()), referenced, {folder}) && includedFileNames == old(includedFileNames)
    {
      var todo := set k | k in files && k.0 == folder;
      while todo != {}
        invariant todo <= set k | k in old(files) && k.0 == folder
        invariant files == map k | k in old(files) && (k.0 == folder && k !in todo ==> k in referenced) :: old(files)[k]
        invariant folders == old(folders) && surveyFolder == old(surveyFolder) && temp == old(temp)
        invariant includedFileNames == old(includedFileNames)
        decreases todo
      {
        var k :| k in todo;
        todo := todo - {k};
        if k !in referenced {
          files := files - {k};
        }
      }
      assert files == SweepOnly(old(Contents()), referenced, {folder}).files;
      if forall k :: k in files ==> k.0 != folder {
        folders := folders - {folder};
      }
    }

    method CleanupOrphanedAttachments(referenced: set<Key>)
      modifies this
      ensures Contents() == Sweep(old(Contents()), referenced) && includedFileNames == old(includedFileNames)
    {
      ghost var d, done := Contents(), {};
      var todo := folders;
      assert SweepOnly(d, referenced, {}) == d by {
        assert SweepOnly(d, referenced, {}).files == d.files;
      }
      while todo != {}
        invariant todo + done == d.folders && todo !! done
        invariant Contents() == SweepOnly(d, referenced, done) && includedFileNames == old(includedFileNames)
        decreases todo
      {
        var folder :| folder in todo;
        SweepMore(d, referenced, done, folder);
        CleanupQuestionFolder(folder, referenced);
        todo, done := todo - {folder}, done + {folder};
      }
      if folders == {} {
        surveyFolder := false;
      }
      assert done == d.folders && files == Sweep(d, referenced).files;
    }
  }
}

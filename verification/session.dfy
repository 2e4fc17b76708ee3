/**
  The session state (`st.session_state`) and the user actions that change it:
  editing the URL list, "Generar Ideas", "Generar Blog para la Idea i" and
  "Refinar Blog". The language model is a parameter `llm` from the request it
  is sent to its reply, `None` when the call raised; a raised call ends the
  script run, so the state it would have written keeps its old value.
 */
module SessionStore {
  import opened Wrappers
  import opened Text
  import opened Decimal
  import opened UrlList
  import opened Ideas
  import opened Fetch

  /** The models offered by the sidebar's select box. */
  datatype ModelId = Gpt35Turbo | Gpt4o

  /** The sidebar's generation parameters as read on the run of an action. */
  datatype Params = Params(numIdeas: int, tone: string, length: int, model: ModelId)

  /** What each of the three prompts is built from; the prompt wording
      itself is not modelled. */
  datatype Request =
    | IdeaRequest(contents: string, numIdeas: int, tone: string, length: int, model: ModelId)
    | DraftRequest(idea: string, contents: string, tone: string, length: int, model: ModelId)
    | RefineRequest(draft: string, instruction: string, model: ModelId)

  type Llm = Request -> Option<string>

  /** `urls`, `ideas` and `generated_blogs`; a draft is stored under the key
      `"blog_i"` of the position `i` of its idea. */
  datatype Session = Session(urls: seq<string>, ideas: seq<string>, blogs: map<string, string>)

  /** The state after the first run's initialisation. */
  const Start: Session := Session(Initial, [], map[])

  /** How the run of an action ends, as the page reports it. */
  datatype Notice =
    | Done        // the action wrote its result
    | NoValidUrl  // "Por favor, ingrese al menos una URL válida."
    | Raised      // a request or a model call raised
    | Ignored     // the button is not on the page for this state

  datatype Outcome = Outcome(next: Session, notice: Notice)

  /** `f"blog_{i}"`. */
  function BlogKey(i: nat): (k: string)
    ensures |k| > 5 && k[..5] == "blog_"
  {
    "blog_" + NatToString(i)
  }

  /** Distinct ideas never share a draft slot. */
  lemma BlogKeyInjective(i: nat, j: nat)
    ensures BlogKey(i) == BlogKey(j) ==> i == j
  {
    if BlogKey(i) == BlogKey(j) {
      assert NatToString(i) == BlogKey(i)[5..];
      assert NatToString(j) == BlogKey(j)[5..];
      NatToStringInjective(i, j);
    }
  }

  /** Key `k` is absent from both maps or maps to the same draft in both. */
  predicate SameAt(m1: map<string, string>, m2: map<string, string>, k: string) {
    (k in m1 <==> k in m2) && (k in m1 ==> m1[k] == m2[k])
  }

  /** A change of the URL list: ideas and drafts are untouched, and the list
      keeps at least one slot. */
  function EditUrls(s: Session, e: UrlEdit): (r: Session)
    ensures r.ideas == s.ideas && r.blogs == s.blogs
    ensures r.urls == ApplyEdit(s.urls, e)
    ensures |s.urls| >= 1 ==> |r.urls| >= 1
  {
    s.(urls := ApplyEdit(s.urls, e))
  }

  /** The page contents of the non-blank URLs, joined by newlines. */
  function SiteContents(s: Session, web: Web): (r: Option<string>)
    ensures r.Some? <==> forall k :: 0 <= k < |ValidUrls(s.urls)| ==> web(ValidUrls(s.urls)[k]).Some?
    ensures ValidUrls(s.urls) == [] ==> r == Some([])
    ensures r.Some? ==> r.value == JoinLines(FetchAll(web, ValidUrls(s.urls)).value)
  {
    Contents(web, ValidUrls(s.urls))
  }

  /** "Generar Ideas". With no non-blank URL nothing changes. Otherwise the
      pages are fetched and the model's reply replaces the whole idea list;
      the URLs and every stored draft, including drafts of ideas that no
      longer exist, are kept. */
  function GenerateIdeas(s: Session, p: Params, web: Web, llm: Llm): (r: Outcome)
    ensures r.next.urls == s.urls && r.next.blogs == s.blogs
    ensures ValidUrls(s.urls) == [] ==> r == Outcome(s, NoValidUrl)
    ensures r.notice != Done ==> r.next == s
    ensures r.notice == Done ==> forall k :: 0 <= k < |r.next.ideas| ==> IsIdea(r.next.ideas[k])
    ensures r.notice == Done <==>
      && ValidUrls(s.urls) != []
      && SiteContents(s, web).Some?
      && llm(IdeaRequest(SiteContents(s, web).value, p.numIdeas, p.tone, p.length, p.model)).Some?
    ensures r.notice == Done ==>
      r.next.ideas == ParseIdeas(llm(IdeaRequest(SiteContents(s, web).value, p.numIdeas, p.tone, p.length, p.model)).value)
  {
    if ValidUrls(s.urls) == [] then
      Outcome(s, NoValidUrl)
    else
      match SiteContents(s, web)
      case None => Outcome(s, Raised)
      case Some(contents) =>
        match llm(IdeaRequest(contents, p.numIdeas, p.tone, p.length, p.model))
        case None => Outcome(s, Raised)
        case Some(reply) => Outcome(s.(ideas := ParseIdeas(reply)), Done)
  }

  /** "Generar Blog para la Idea i". The button is only on the page for an
      existing idea without a draft; the draft it stores is the model's reply
      verbatim, under that idea's key, and no other key changes. The pages
      are fetched again, and a list without non-blank URLs sends empty
      contents rather than stopping. */
  function GenerateDraft(s: Session, i: nat, p: Params, web: Web, llm: Llm): (r: Outcome)
    ensures r.next.urls == s.urls && r.next.ideas == s.ideas
    ensures r.notice != Done ==> r.next == s
    ensures i >= |s.ideas| || BlogKey(i) in s.blogs ==> r == Outcome(s, Ignored)
    ensures forall k :: k != BlogKey(i) ==> SameAt(s.blogs, r.next.blogs, k)
    ensures r.notice == Done <==>
      && i < |s.ideas| && BlogKey(i) !in s.blogs
      && SiteContents(s, web).Some?
      && llm(DraftRequest(s.ideas[i], SiteContents(s, web).value, p.tone, p.length, p.model)).Some?
    ensures r.notice == Done ==>
      && i < |s.ideas| && BlogKey(i) !in s.blogs
      && SiteContents(s, web).Some?
      && BlogKey(i) in r.next.blogs
      && Some(r.next.blogs[BlogKey(i)])
         == llm(DraftRequest(s.ideas[i], SiteContents(s, web).value, p.tone, p.length, p.model))
  {
    if i >= |s.ideas| || BlogKey(i) in s.blogs then
      Outcome(s, Ignored)
    else
      match SiteContents(s, web)
      case None => Outcome(s, Raised)
      case Some(contents) =>
        match llm(DraftRequest(s.ideas[i], contents, p.tone, p.length, p.model))
        case None => Outcome(s, Raised)
        case Some(draft) => Outcome(s.(blogs := s.blogs[BlogKey(i) := draft]), Done)
  }

  /** "Refinar Blog". The button is only on the page for an idea that has a
      draft; the model's reply overwrites that draft, and no other key
      changes. A call that raised leaves the old draft in place. */
  function RefineDraft(s: Session, i: nat, instruction: string, p: Params, llm: Llm): (r: Outcome)
    ensures r.next.urls == s.urls && r.next.ideas == s.ideas
    ensures r.next.blogs.Keys == s.blogs.Keys
    ensures r.notice != Done ==> r.next == s
    ensures i >= |s.ideas| || BlogKey(i) !in s.blogs ==> r == Outcome(s, Ignored)
    ensures forall k :: k != BlogKey(i) ==> SameAt(s.blogs, r.next.blogs, k)
    ensures r.notice == Done <==>
      && i < |s.ideas| && BlogKey(i) in s.blogs
      && llm(RefineRequest(s.blogs[BlogKey(i)], instruction, p.model)).Some?
    ensures r.notice == Done ==>
      && BlogKey(i) in s.blogs
      && Some(r.next.blogs[BlogKey(i)]) == llm(RefineRequest(s.blogs[BlogKey(i)], instruction, p.model))
  {
    if i >= |s.ideas| || BlogKey(i) !in s.blogs then
      Outcome(s, Ignored)
    else
      match llm(RefineRequest(s.blogs[BlogKey(i)], instruction, p.model))
      case None => Outcome(s, Raised)
      case Some(refined) => Outcome(s.(blogs := s.blogs[BlogKey(i) := refined]), Done)
  }

  /** For an idea that has no draft yet, once the pages are fetched and the
      model answers, the answer is stored under the idea's key and nothing
      else in the drafts changes. */
  lemma DraftStored(s: Session, i: nat, p: Params, web: Web, llm: Llm)
    requires i < |s.ideas| && BlogKey(i) !in s.blogs && SiteContents(s, web).Some?
    requires llm(DraftRequest(s.ideas[i], SiteContents(s, web).value, p.tone, p.length, p.model)).Some?
    ensures GenerateDraft(s, i, p, web, llm).next.blogs
            == s.blogs[BlogKey(i) := llm(DraftRequest(s.ideas[i], SiteContents(s, web).value, p.tone, p.length, p.model)).value]
  {
  }

  /** For an idea that has a draft, once the model answers, the answer
      replaces that draft and nothing else in the drafts changes. */
  lemma RefineStored(s: Session, i: nat, instruction: string, p: Params, llm: Llm)
    requires i < |s.ideas| && BlogKey(i) in s.blogs
    requires llm(RefineRequest(s.blogs[BlogKey(i)], instruction, p.model)).Some?
    ensures RefineDraft(s, i, instruction, p, llm).next.blogs
            == s.blogs[BlogKey(i) := llm(RefineRequest(s.blogs[BlogKey(i)], instruction, p.model)).value]
  {
  }

  /** Idea 1 has no draft and the model answers `"# Title\nBody"`: after
      "Generar Blog para la Idea 1" key `blog_1` holds that text. */
  lemma DraftExample()
    ensures
      var s := Session(["https://example.com/a"], ["a", "b"], map[]);
      var r := GenerateDraft(s, 1, Params(3, "profesional", 1000, Gpt35Turbo),
                             _ => Some(Response(200, "page")), _ => Some("# Title\nBody"));
      && r.notice == Done && r.next.blogs == map[BlogKey(1) := "# Title\nBody"]
  {
    var url := "https://example.com/a";
    assert !IsSpace(url[0]);
    assert ValidUrls([url]) == [url];
  }

  /** The drafts of the other ideas survive generating or refining the draft
      of idea `i`: the keys are per index and never collide. */
  lemma DraftActionsKeepOtherDrafts(s: Session, i: nat, j: nat, instruction: string, p: Params, web: Web, llm: Llm)
    requires i != j
    ensures SameAt(s.blogs, GenerateDraft(s, i, p, web, llm).next.blogs, BlogKey(j))
    ensures SameAt(s.blogs, RefineDraft(s, i, instruction, p, llm).next.blogs, BlogKey(j))
  {
    BlogKeyInjective(i, j);
  }

  /** Asking twice for the draft of the same idea stores what asking once
      stored: after a success the button is gone, after a failure the state
      is what it was. */
  lemma GenerateDraftIdempotent(s: Session, i: nat, p: Params, web: Web, llm: Llm)
    ensures var once := GenerateDraft(s, i, p, web, llm).next;
            GenerateDraft(once, i, p, web, llm).next == once
  {
  }

  /** Generating a draft and then refining it leaves the refined text under
      that idea's key and every other key as it was before both actions. */
  lemma DraftThenRefine(s: Session, i: nat, instruction: string, p: Params, web: Web, llm: Llm)
    requires GenerateDraft(s, i, p, web, llm).notice == Done
    requires llm(RefineRequest(GenerateDraft(s, i, p, web, llm).next.blogs[BlogKey(i)], instruction, p.model)).Some?
    ensures var drafted := GenerateDraft(s, i, p, web, llm).next;
            var refined := RefineDraft(drafted, i, instruction, p, llm).next;
            refined.blogs == s.blogs[BlogKey(i) := llm(RefineRequest(drafted.blogs[BlogKey(i)], instruction, p.model)).value]
  {
    var drafted := GenerateDraft(s, i, p, web, llm).next;
    var refined := RefineDraft(drafted, i, instruction, p, llm).next;
    var expected := s.blogs[BlogKey(i) := llm(RefineRequest(drafted.blogs[BlogKey(i)], instruction, p.model)).value];
    assert refined.blogs.Keys == expected.Keys;
    forall k | k in expected ensures refined.blogs[k] == expected[k] {
      if k != BlogKey(i) {
        assert SameAt(s.blogs, drafted.blogs, k);
        assert SameAt(drafted.blogs, refined.blogs, k);
      }
    }
  }

  /** The ideas are whatever lines the model wrote, however many ideas were
      asked for: a reply that lists well-formed ideas one per line becomes
      exactly that idea list. No induction is involved: `{:induction false}`
      only keeps the verifier from trying one. */
  lemma {:induction false} IdeasAreTheReplyLines(s: Session, p: Params, web: Web, written: seq<string>)
    requires ValidUrls(s.urls) != [] && SiteContents(s, web).Some?
    requires forall k :: 0 <= k < |written| ==> IsIdea(written[k])
    ensures GenerateIdeas(s, p, web, _ => Some(JoinLines(written))).next.ideas == written
  {
    IdeasFromReply(s, p, web, JoinLines(written));
    ParseIdeasOfJoinLines(written);
  }

  /** When the pages are fetched and the model answers, the idea list becomes
      the parse of the answer. No induction is involved: `{:induction false}`
      only keeps the verifier from trying one. */
  lemma {:induction false} IdeasFromReply(s: Session, p: Params, web: Web, reply: string)
    requires ValidUrls(s.urls) != [] && SiteContents(s, web).Some?
    ensures GenerateIdeas(s, p, web, _ => Some(reply)).notice == Done
    ensures GenerateIdeas(s, p, web, _ => Some(reply)).next.ideas == ParseIdeas(reply)
  {
    var llm: Llm := _ => Some(reply);
    assert llm(IdeaRequest(SiteContents(s, web).value, p.numIdeas, p.tone, p.length, p.model)) == Some(reply);
  }

  /** One user action together with the outside world's answers to it. */
  datatype Action =
    | EditUrlList(edit: UrlEdit)
    | GenIdeas(params: Params)
    | GenDraft(index: nat, params: Params)
    | Refine(index: nat, instruction: string, params: Params)

  datatype Event = Event(action: Action, web: Web, llm: Llm)

  /** One action: the URL list keeps a slot and no draft is ever deleted. */
  function Step(s: Session, e: Event): (r: Session)
    ensures |s.urls| >= 1 ==> |r.urls| >= 1
    ensures s.blogs.Keys <= r.blogs.Keys
  {
    match e.action
    case EditUrlList(edit) => EditUrls(s, edit)
    case GenIdeas(p) => GenerateIdeas(s, p, e.web, e.llm).next
    case GenDraft(i, p) => GenerateDraft(s, i, p, e.web, e.llm).next
    case Refine(i, instruction, p) => RefineDraft(s, i, instruction, p, e.llm).next
  }

  function Run(s: Session, events: seq<Event>): Session
    decreases |events|
  {
    if events == [] then s else Run(Step(s, events[0]), events[1..])
  }

  /** Along any sequence of actions the URL list is never empty and the set
      of stored drafts only grows. */
  lemma {:induction false} RunInvariant(s: Session, events: seq<Event>)
    requires |s.urls| >= 1
    ensures |Run(s, events).urls| >= 1
    ensures s.blogs.Keys <= Run(s, events).blogs.Keys
    decreases |events|
  {
    if events != [] {
      RunInvariant(Step(s, events[0]), events[1..]);
    }
  }

  /** From the initial state the URL list is never empty. */
  lemma UrlsNeverEmpty(events: seq<Event>)
    ensures |Run(Start, events).urls| >= 1
  {
    RunInvariant(Start, events);
  }

  /** Drafts are not tied to the current idea list: after new ideas are
      generated, a draft stored for idea 1 survives although the new list has
      a single idea. */
  lemma StaleDraftSurvives()
    ensures
      var s := Session(["https://example.com/a"], ["a", "b"], map[BlogKey(1) := "# Old"]);
      var r := GenerateIdeas(s, Params(3, "profesional", 1000, Gpt35Turbo),
                             _ => Some(Response(200, "page")), _ => Some("c"));
      && r.notice == Done && r.next.ideas == ["c"]
      && BlogKey(1) in r.next.blogs && |r.next.ideas| <= 1
  {
    var url := "https://example.com/a";
    assert !IsSpace(url[0]);
    assert ValidUrls([url]) == [url];
    assert IsIdea("c");
    ParseIdeasOfJoinLines(["c"]);
  }
}

// The conversation list under live previews: updateConversationPreview of
// frontend/src/features/chat/chat.page.tsx.
module ConversationList {
  import opened Options
  import opened StableSort

  datatype Conversation = Conversation(id: string, title: string, lastMessagePreview: Option<string>,
                                       lastMessageAt: Option<nat>, unreadCount: nat, hasUnread: bool)

  datatype Preview = Preview(conversationId: string, lastMessagePreview: Option<string>, lastMessageAt: Option<nat>,
                             unreadCount: nat, hasUnread: bool)

  // The comparator puts the latest first; no date counts as the epoch.
  function LatestFirst(c: Conversation): int {
    if c.lastMessageAt.Some? then -(c.lastMessageAt.value as int) else 0
  }

  function Patched(c: Conversation, p: Preview): Conversation {
    if c.id == p.conversationId then
      c.(lastMessagePreview := p.lastMessagePreview, lastMessageAt := p.lastMessageAt,
         unreadCount := p.unreadCount, hasUnread := p.hasUnread)
    else c
  }

  function PatchAll(cs: seq<Conversation>, p: Preview): (r: seq<Conversation>)
    ensures |r| == |cs| && forall i :: 0 <= i < |cs| ==> r[i] == Patched(cs[i], p)
  {
    seq(|cs|, i requires 0 <= i < |cs| => Patched(cs[i], p))
  }

  predicate Listed(cs: seq<Conversation>, id: string) {
    exists i :: 0 <= i < |cs| && cs[i].id == id
  }

  // null asks the page to reload the list.
  function UpdatePreview(cs: seq<Conversation>, p: Preview): Option<seq<Conversation>> {
    if Listed(cs, p.conversationId) then Some(Sort(LatestFirst, PatchAll(cs, p))) else None
  }

  function Others(id: string): Conversation -> bool {
    (c: Conversation) => c.id != id
  }

  function Named(id: string): Conversation -> bool {
    (c: Conversation) => c.id == id
  }

  lemma {:induction false} OthersUntouched(cs: seq<Conversation>, p: Preview)
    ensures Filter(Others(p.conversationId), PatchAll(cs, p)) == Filter(Others(p.conversationId), cs)
  {
    if cs != [] {
      var front := cs[..|cs| - 1];
      OthersUntouched(front, p);
      assert PatchAll(cs, p)[..|cs| - 1] == PatchAll(front, p);
    }
  }

  lemma {:induction false} NamedPatched(cs: seq<Conversation>, p: Preview)
    ensures Filter(Named(p.conversationId), PatchAll(cs, p)) == PatchAll(Filter(Named(p.conversationId), cs), p)
  {
    if cs != [] {
      var front, last := cs[..|cs| - 1], cs[|cs| - 1];
      NamedPatched(front, p);
      assert PatchAll(cs, p)[..|cs| - 1] == PatchAll(front, p);
      assert PatchAll(cs, p)[|cs| - 1] == Patched(last, p);
    }
  }

  lemma {:induction false} FilterSorted(key: Conversation -> int, f: Conversation -> bool, cs: seq<Conversation>)
    requires Sorted(key, cs)
    ensures Sorted(key, Filter(f, cs))
  {
    if cs != [] {
      var front := cs[..|cs| - 1];
      FilterSorted(key, f, front);
      forall i | 0 <= i < |Filter(f, front)| ensures key(Filter(f, front)[i]) <= key(cs[|cs| - 1]) {
        FilterKeepsExactly(f, front, Filter(f, front)[i]);
      }
    }
  }

  lemma SortedPreview(cs: seq<Conversation>, p: Preview)
    requires Listed(cs, p.conversationId)
    ensures var next := UpdatePreview(cs, p).value; Sorted(LatestFirst, next) && |next| == |cs|
    ensures var named := Named(p.conversationId);
        Filter(named, UpdatePreview(cs, p).value) == PatchAll(Filter(named, cs), p)
    ensures var others := Others(p.conversationId);
        multiset(Filter(others, UpdatePreview(cs, p).value)) == multiset(Filter(others, cs))
    ensures var id := p.conversationId;
        Sorted(LatestFirst, cs) ==> Filter(Others(id), UpdatePreview(cs, p).value) == Filter(Others(id), cs)
  {
    var id, patched := p.conversationId, PatchAll(cs, p);
    SortSorts(LatestFirst, patched);
    SortPermutes(LatestFirst, patched);
    SortFilter(LatestFirst, Named(id), patched);
    NamedPatched(cs, p);
    NamedShareTheKey(cs, p);
    SortedIsFixed(LatestFirst, Filter(Named(id), patched));
    SortFilter(LatestFirst, Others(id), patched);
    OthersUntouched(cs, p);
    SortPermutes(LatestFirst, Filter(Others(id), cs));
    if Sorted(LatestFirst, cs) {
      FilterSorted(LatestFirst, Others(id), cs);
      SortedIsFixed(LatestFirst, Filter(Others(id), cs));
    }
  }

  lemma NamedShareTheKey(cs: seq<Conversation>, p: Preview)
    ensures Sorted(LatestFirst, PatchAll(Filter(Named(p.conversationId), cs), p))
  {
    var named := Filter(Named(p.conversationId), cs);
    forall i | 0 <= i < |named| ensures named[i].id == p.conversationId {
      FilterKeepsExactly(Named(p.conversationId), cs, named[i]);
    }
  }

  // No conversation comes before one with a later message; one without a message
  // counts as the epoch.
  predicate LatestComeFirst(cs: seq<Conversation>) {
    forall i, j :: 0 <= i < j < |cs| ==> NotBefore(cs[i], cs[j])
  }

  predicate NotBefore(c: Conversation, d: Conversation) {
    match d.lastMessageAt
    case None => true
    case Some(at) => if c.lastMessageAt == None then at == 0 else at <= c.lastMessageAt.value
  }

  lemma SortedIff(cs: seq<Conversation>)
    ensures Sorted(LatestFirst, cs) <==> LatestComeFirst(cs)
  {
    assert forall c, d :: LatestFirst(c) <= LatestFirst(d) <==> NotBefore(c, d);
  }

  // c after the preview: its fields replaced, everything else kept.
  predicate Shows(after: Conversation, c: Conversation, p: Preview) {
    && after.id == c.id && after.title == c.title
    && after.lastMessagePreview == p.lastMessagePreview && after.lastMessageAt == p.lastMessageAt
    && after.unreadCount == p.unreadCount && after.hasUnread == p.hasUnread
  }

  predicate NamedShow(after: seq<Conversation>, before: seq<Conversation>, p: Preview) {
    |after| == |before| && forall i :: 0 <= i < |before| ==> Shows(after[i], before[i], p)
  }

  lemma PatchedShow(cs: seq<Conversation>, p: Preview)
    ensures var named := Filter(Named(p.conversationId), cs); NamedShow(PatchAll(named, p), named, p)
  {
    var named := Filter(Named(p.conversationId), cs);
    forall i | 0 <= i < |named| ensures named[i].id == p.conversationId {
      FilterKeepsExactly(Named(p.conversationId), cs, named[i]);
    }
  }

  predicate PreviewShown(cs: seq<Conversation>, next: seq<Conversation>, p: Preview) {
    var id := p.conversationId;
    && LatestComeFirst(next) && |next| == |cs|
    && NamedShow(Filter(Named(id), next), Filter(Named(id), cs), p)
    && multiset(Filter(Others(id), next)) == multiset(Filter(Others(id), cs))
    && (LatestComeFirst(cs) ==> Filter(Others(id), next) == Filter(Others(id), cs))
  }

  // The page reloads its list exactly if the conversation is not in it. Otherwise
  // the list comes back latest first; the named conversation carries exactly the
  // preview's fields, once for each time it was listed; and the others are
  // unchanged, and in the order they had if the list was in order.
  lemma PreviewMovesOnlyItsConversation(cs: seq<Conversation>, p: Preview)
    ensures UpdatePreview(cs, p).Some? <==> exists i :: 0 <= i < |cs| && cs[i].id == p.conversationId
    ensures UpdatePreview(cs, p).Some? ==> PreviewShown(cs, UpdatePreview(cs, p).value, p)
  {
    if UpdatePreview(cs, p).Some? {
      SortedPreview(cs, p);
      PatchedShow(cs, p);
      SortedIff(UpdatePreview(cs, p).value);
      SortedIff(cs);
    }
  }
}

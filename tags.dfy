/**
  The user tag predicates (packages/api/src/utils/tags.js): first-match
  searches over a user's tags and tag proposals. A field that is `null`,
  `undefined` or the empty string counts as unset.
 */
module Tags {
  import opened Wrappers
  import opened Seqs

  /** A tag assigned to a user; a set `deletedAt` marks it as removed. */
  datatype Tag = Tag(tag: string, value: Option<string>, deletedAt: Option<string>)

  /** A request for a tag; it is pending while no admin decision is recorded and it is not deleted. */
  datatype TagProposal = TagProposal(tag: string, adminDecisionType: Option<string>, deletedAt: Option<string>)

  /** The user record; either list may be missing. */
  datatype User = User(tags: Option<seq<Tag>>, tagProposals: Option<seq<TagProposal>>)

  /** JavaScript truthiness of a nullable string: present and not empty. */
  predicate Truthy(s: Option<string>) { s.Some? && s.value != "" }

  /** `tag.tag === tagName && !tag.deleted_at` */
  function LiveTagNamed(tagName: string): Tag -> bool
  {
    (t: Tag) => t.tag == tagName && !Truthy(t.deletedAt)
  }

  /** `tag.tag === tagName && tag.value === value && !tag.deleted_at` */
  function LiveTagWith(tagName: string, value: string): Tag -> bool
  {
    (t: Tag) => t.tag == tagName && t.value == Some(value) && !Truthy(t.deletedAt)
  }

  /** `proposal.tag === tagName && !proposal.admin_decision_type && !proposal.deleted_at` */
  function PendingProposalFor(tagName: string): TagProposal -> bool
  {
    (p: TagProposal) => p.tag == tagName && !Truthy(p.adminDecisionType) && !Truthy(p.deletedAt)
  }

  /** `user.tags?.find(pred)`: `None` when the list is missing or nothing matches. */
  function FindTag(user: User, pred: Tag -> bool): (r: Option<Tag>)
    ensures r.None? <==> (user.tags.None? || forall t :: t in user.tags.value ==> !pred(t))
    ensures r.Some? ==> user.tags.Some? && r.value in user.tags.value && pred(r.value)
    ensures r.Some? ==>
      exists i :: 0 <= i < |user.tags.value| && user.tags.value[i] == r.value &&
        forall j :: 0 <= j < i ==> !pred(user.tags.value[j])
  {
    match user.tags
    case None => None
    case Some(tags) => Find(pred, tags)
  }

  /**
    `getTagValue`: the value of the first live tag named `tagName` when that
    value is truthy, and `defaultValue` otherwise.
   */
  function GetTagValue(user: User, tagName: string, defaultValue: Option<string>): (r: Option<string>)
    ensures r == defaultValue || (
      && Truthy(r)
      && user.tags.Some?
      && exists t :: t in user.tags.value && t.tag == tagName && !Truthy(t.deletedAt) && t.value == r)
  {
    var found := FindTag(user, LiveTagNamed(tagName));
    var value := if found.Some? then found.value.value else None;
    if Truthy(value) then value else defaultValue
  }

  /** `hasTag`: some live tag carries `tagName` with exactly `value`. */
  function HasTag(user: User, tagName: string, value: string): (r: bool)
    ensures r <==> (
      && user.tags.Some?
      && exists t :: t in user.tags.value && t.tag == tagName && t.value == Some(value) && !Truthy(t.deletedAt))
  {
    var found := FindTag(user, LiveTagWith(tagName, value));
    found.Some?
  }

  /** `hasPendingTagProposal`: some proposal for `tagName` has no admin decision and is not deleted. */
  function HasPendingTagProposal(user: User, tagName: string): (r: bool)
    ensures r <==> (
      && user.tagProposals.Some?
      && exists p :: p in user.tagProposals.value && p.tag == tagName
           && !Truthy(p.adminDecisionType) && !Truthy(p.deletedAt))
  {
    match user.tagProposals
    case None => false
    case Some(proposals) => Find(PendingProposalFor(tagName), proposals).Some?
  }

  // ---------------------------------------------------------------------------
  // Properties

  /**
    `getTagValue` looks only at the first live tag named `tagName`: its value
    when truthy, otherwise the default, whatever later tags of that name hold.
   */
  lemma GetTagValueFirstMatch(user: User, tagName: string, defaultValue: Option<string>, i: nat)
    requires user.tags.Some? && i < |user.tags.value|
    requires user.tags.value[i].tag == tagName && !Truthy(user.tags.value[i].deletedAt)
    requires forall j :: 0 <= j < i ==>
      !(user.tags.value[j].tag == tagName && !Truthy(user.tags.value[j].deletedAt))
    ensures GetTagValue(user, tagName, defaultValue) ==
      if Truthy(user.tags.value[i].value) then user.tags.value[i].value else defaultValue
  {
    var tags := user.tags.value;
    FindIndexIsFirst(LiveTagNamed(tagName), tags, i);
  }

  /** Without a tag list, or without a live tag named `tagName`, `getTagValue` is the default. */
  lemma GetTagValueAbsent(user: User, tagName: string, defaultValue: Option<string>)
    requires user.tags.Some? ==>
      forall t :: t in user.tags.value ==> !(t.tag == tagName && !Truthy(t.deletedAt))
    ensures GetTagValue(user, tagName, defaultValue) == defaultValue
  {
    if user.tags.Some? {
      assert Find(LiveTagNamed(tagName), user.tags.value).None?;
    }
  }

  /**
    A first live tag with an empty value hides a later live tag of the same
    name: `getTagValue` falls back to the default although `hasTag` sees the later one.
   */
  lemma EmptyFirstValueHidesLater()
    ensures var user := User(Some([Tag("HasAccountRestriction", Some(""), None),
                                    Tag("HasAccountRestriction", Some("true"), None)]), None);
      && GetTagValue(user, "HasAccountRestriction", Some("false")) == Some("false")
      && HasTag(user, "HasAccountRestriction", "true")
  {
    var user := User(Some([Tag("HasAccountRestriction", Some(""), None),
                           Tag("HasAccountRestriction", Some("true"), None)]), None);
    GetTagValueFirstMatch(user, "HasAccountRestriction", Some("false"), 0);
    assert user.tags.value[1] in user.tags.value;
  }

  /**
    A deleted tag never affects `getTagValue` or `hasTag`: adding one anywhere
    in the list, or removing one, leaves both unchanged.
   */
  lemma DeletedTagIgnored(a: seq<Tag>, t: Tag, b: seq<Tag>, proposals: Option<seq<TagProposal>>,
                          tagName: string, value: string, defaultValue: Option<string>)
    requires Truthy(t.deletedAt)
    ensures var with, without := User(Some(a + [t] + b), proposals), User(Some(a + b), proposals);
      && GetTagValue(with, tagName, defaultValue) == GetTagValue(without, tagName, defaultValue)
      && HasTag(with, tagName, value) == HasTag(without, tagName, value)
  {
    FindSkipsRejected(LiveTagNamed(tagName), a, t, b);
    FindSkipsRejected(LiveTagWith(tagName, value), a, t, b);
  }

  /** A deleted or decided proposal never affects `hasPendingTagProposal`. */
  lemma SettledProposalIgnored(a: seq<TagProposal>, p: TagProposal, b: seq<TagProposal>,
                               tags: Option<seq<Tag>>, tagName: string)
    requires Truthy(p.deletedAt) || Truthy(p.adminDecisionType)
    ensures HasPendingTagProposal(User(tags, Some(a + [p] + b)), tagName)
         == HasPendingTagProposal(User(tags, Some(a + b)), tagName)
  {
    FindSkipsRejected(PendingProposalFor(tagName), a, p, b);
  }

  /**
    When `hasTag` holds for a non-empty `value` through the tag at position
    `i`, and no earlier live tag has that name, `getTagValue` returns `value`.
   */
  lemma HasTagGivesValue(user: User, tagName: string, value: string, defaultValue: Option<string>, i: nat)
    requires user.tags.Some? && i < |user.tags.value|
    requires user.tags.value[i].tag == tagName && user.tags.value[i].value == Some(value)
    requires !Truthy(user.tags.value[i].deletedAt)
    requires forall j :: 0 <= j < i ==>
      !(user.tags.value[j].tag == tagName && !Truthy(user.tags.value[j].deletedAt))
    requires value != ""
    ensures HasTag(user, tagName, value)
    ensures GetTagValue(user, tagName, defaultValue) == Some(value)
  {
    assert user.tags.value[i] in user.tags.value;
    GetTagValueFirstMatch(user, tagName, defaultValue, i);
  }
}

/** What a project card shows: `formatProjectName` and the description and
    language tags derived in `displayProjects`. A card is a record of its
    fields; the markup around them is not modelled. */
module Cards {
  import opened Wrappers
  import opened Text
  import opened Repos
  import opened Fetch

  /** `word.charAt(0).toUpperCase() + word.slice(1)` */
  function Capitalize(word: string): (r: string)
    ensures |r| == |word|
    ensures word != [] ==> r[0] == Upper(word[0]) && r[1..] == word[1..]
  {
    if word == [] then [] else [Upper(word[0])] + word[1..]
  }

  function CapitalizeAll(words: seq<string>): (r: seq<string>)
    ensures |r| == |words|
  {
    seq(|words|, i requires 0 <= i < |words| => Capitalize(words[i]))
  }

  /** The character at position `i` of a kebab-case name turned into Title
      Case: a hyphen becomes a space, a character that starts a segment is
      upper-cased, and every other character is kept. */
  function TitleChar(name: string, i: nat): char
    requires i < |name|
  {
    if name[i] == '-' then ' '
    else if i == 0 || name[i - 1] == '-' then Upper(name[i])
    else name[i]
  }

  /** `name.split('-').map(capitalize).join(' ')`: as long as `name`, and
      built from it character by character as `TitleChar` says. */
  function FormatProjectName(name: string): (title: string)
    ensures |title| == |name|
    ensures forall i :: 0 <= i < |name| ==> title[i] == TitleChar(name, i)
  {
    var segments := Split(name, '-');
    JoinSplit(name, '-');
    CapitalizedJoinLength(segments);
    forall i | 0 <= i < |name|
      ensures Join(CapitalizeAll(segments), " ")[i] == TitleChar(name, i)
    {
      CapitalizedJoinAt(segments, i);
    }
    Join(CapitalizeAll(segments), " ")
  }

  lemma {:induction false} CapitalizedJoinLength(ws: seq<string>)
    ensures |Join(CapitalizeAll(ws), " ")| == |Join(ws, "-")|
  {
    if |ws| > 1 {
      CapitalizedJoinLength(ws[1..]);
      assert CapitalizeAll(ws)[1..] == CapitalizeAll(ws[1..]);
    }
  }

  /** Joining hyphen-free segments with '-' and joining their capitalized
      forms with ' ' agree position by position as `TitleChar` says. */
  lemma {:induction false} CapitalizedJoinAt(ws: seq<string>, i: nat)
    requires forall k :: 0 <= k < |ws| ==> '-' !in ws[k]
    requires i < |Join(ws, "-")|
    ensures |Join(CapitalizeAll(ws), " ")| == |Join(ws, "-")|
    ensures Join(CapitalizeAll(ws), " ")[i] == TitleChar(Join(ws, "-"), i)
  {
    CapitalizedJoinLength(ws);
    var a, b := Join(ws, "-"), Join(CapitalizeAll(ws), " ");
    var w := ws[0];
    assert w[..] == w;
    if |ws| == 1 {
      assert a == w && b == Capitalize(w);
      if i > 0 {
        assert w[i - 1] in w;
      }
    } else {
      var a', b' := Join(ws[1..], "-"), Join(CapitalizeAll(ws[1..]), " ");
      assert CapitalizeAll(ws)[1..] == CapitalizeAll(ws[1..]);
      assert a == w + "-" + a';
      assert b == Capitalize(w) + " " + b';
      CapitalizedJoinLength(ws[1..]);
      if i < |w| {
        assert a[i] == w[i] && b[i] == Capitalize(w)[i];
        if i > 0 {
          assert a[i - 1] == w[i - 1];
          assert w[i - 1] in w;
        }
        assert w[i] in w;
      } else if i > |w| {
        var j := i - |w| - 1;
        CapitalizedJoinAt(ws[1..], j);
        assert a[i] == a'[j] && b[i] == b'[j];
        assert a[i - 1] == if j == 0 then '-' else a'[j - 1];
      }
    }
  }

  /** `formatProjectName('')` is `''`. */
  lemma FormatProjectNameEmpty()
    ensures FormatProjectName("") == ""
  {
  }

  /** For a name without spaces, the words of the title are the name's
      hyphen-separated segments, each with its first character upper-cased:
      as many words as segments. */
  lemma FormatProjectNameWords(name: string)
    requires ' ' !in name
    ensures Split(FormatProjectName(name), ' ') == CapitalizeAll(Split(name, '-'))
    ensures |Split(FormatProjectName(name), ' ')| == |Split(name, '-')|
  {
    var segments := Split(name, '-');
    var words := CapitalizeAll(segments);
    assert forall k :: 0 <= k < |words| ==> ' ' !in words[k];
    SplitJoin(words, ' ');
    FormatProjectNameIsJoin(name);
  }

  lemma FormatProjectNameIsJoin(name: string)
    ensures FormatProjectName(name) == Join(CapitalizeAll(Split(name, '-')), " ")
  {
  }

  /** `'No description available.'` */
  const NoDescription := "No description available."
  /** `maxDescriptionLength` */
  const MaxDescriptionLength: nat := 120
  const Ellipsis := "..."

  /** The description shown on a card (lines 219-223 of script.js): the placeholder
      when the description is missing or empty, the description itself up
      to 120 characters, otherwise its first 120 characters and '...'. */
  function ShownDescription(description: Option<string>): (shown: string)
    ensures shown != ""
    ensures |shown| <= MaxDescriptionLength + |Ellipsis|
    ensures description.None? || description.value == "" ==> shown == NoDescription
    ensures description.Some? && 0 < |description.value| <= MaxDescriptionLength ==>
      shown == description.value
    ensures description.Some? && |description.value| > MaxDescriptionLength ==>
      |shown| == MaxDescriptionLength + |Ellipsis|
      && shown[..MaxDescriptionLength] == description.value[..MaxDescriptionLength]
      && shown[MaxDescriptionLength..] == Ellipsis
  {
    var text := if description.Some? && description.value != "" then description.value else NoDescription;
    if |text| > MaxDescriptionLength then text[..MaxDescriptionLength] + Ellipsis else text
  }

  /** Lines 214-216 of script.js: the project's languages, or `['Code']` when it has none. */
  function CardLanguages(languages: seq<string>): (shown: seq<string>)
    ensures shown != []
    ensures languages != [] ==> shown == languages
    ensures languages == [] ==> shown == [FallbackLanguage]
  {
    if |languages| > 0 then languages else [FallbackLanguage]
  }

  /** Most languages shown as tags. */
  const MaxTags: nat := 3

  /** The `+N more` tag: `hidden` is N, `title` lists the hidden languages. */
  datatype MoreTag = MoreTag(hidden: nat, title: string)

  /** `languages.slice(0, 3)`: the first languages, at most three. */
  function VisibleTags(languages: seq<string>): (tags: seq<string>)
    ensures |tags| == Min(MaxTags, |languages|)
    ensures IsPrefix(tags, languages)
  {
    languages[..Min(MaxTags, |languages|)]
  }

  /** The `+N more` tag, present exactly when more than three languages
      are known; it counts and lists the ones not shown. */
  function MoreLanguages(languages: seq<string>): (more: Option<MoreTag>)
    ensures more.Some? <==> |languages| > MaxTags
    ensures more.Some? ==> more.value.hidden == |languages| - MaxTags > 0
    ensures more.Some? ==> more.value.title == Join(languages[MaxTags..], ", ")
  {
    if |languages| > MaxTags
    then Some(MoreTag(|languages| - MaxTags, Join(languages[MaxTags..], ", ")))
    else None
  }

  /** The tag's text, `+${languages.length - 3} more`. */
  function MoreLabel(more: MoreTag): (tagText: string)
    ensures |tagText| > |" more"| + 1
    ensures tagText[0] == '+' && tagText[|tagText| - |" more"|..] == " more"
    ensures Denotes(tagText[1..|tagText| - |" more"|], more.hidden)
  {
    var digits := NatToDecimal(more.hidden);
    var tagText := "+" + digits + " more";
    DecimalRoundTrip(more.hidden);
    assert tagText[1..|tagText| - |" more"|] == digits;
    assert tagText[|tagText| - |" more"|..] == " more";
    tagText
  }

  /** Every language is either a visible tag or counted by the `+N more`
      tag, and the tags come first in the project's order. */
  lemma {:induction false} TagsAccountForAll(languages: seq<string>)
    ensures VisibleTags(languages) + (if MoreLanguages(languages).Some? then languages[MaxTags..] else [])
         == languages
    ensures |VisibleTags(languages)|
            + (if MoreLanguages(languages).Some? then MoreLanguages(languages).value.hidden else 0)
         == |languages|
  {
    if |languages| > MaxTags {
      assert languages[..MaxTags] + languages[MaxTags..] == languages;
    }
  }

  /** When no language name holds a comma, the `+N more` title names
      exactly N languages. */
  lemma MoreTitleNamesHidden(languages: seq<string>)
    requires |languages| > MaxTags
    requires forall k :: 0 <= k < |languages| ==> ',' !in languages[k]
    ensures |Split(MoreLanguages(languages).value.title, ',')| == MoreLanguages(languages).value.hidden
  {
    var hidden := languages[MaxTags..];
    assert Count(',', ", ") == 1;
    JoinCount(hidden, ", ", ',');
  }

  /** The content of one project card. */
  datatype Card = Card(
    title: string,
    description: string,
    liveDemo: Option<string>,  // the homepage link, when the homepage is set
    repoUrl: string,
    tags: seq<string>,
    more: Option<MoreTag>)

  /** The card `displayProjects` builds for a project. */
  function CardOf(p: Project): (card: Card)
    ensures card.title == FormatProjectName(p.repo.name) && |card.title| == |p.repo.name|
    ensures card.description == ShownDescription(p.repo.description)
    ensures 0 < |card.description| <= MaxDescriptionLength + |Ellipsis|
    ensures card.liveDemo.Some? <==> p.repo.homepage.Some? && p.repo.homepage.value != ""
    ensures card.liveDemo.Some? ==> card.liveDemo == p.repo.homepage
    ensures card.repoUrl == p.repo.htmlUrl
    ensures 1 <= |card.tags| <= MaxTags
    ensures IsPrefix(card.tags, CardLanguages(p.languages))
    ensures card.tags == VisibleTags(CardLanguages(p.languages))
    ensures card.more == MoreLanguages(CardLanguages(p.languages))
    ensures card.more.Some? <==> |CardLanguages(p.languages)| > MaxTags
  {
    var languages := CardLanguages(p.languages);
    Card(
      FormatProjectName(p.repo.name),
      ShownDescription(p.repo.description),
      if p.repo.homepage.Some? && p.repo.homepage.value != "" then p.repo.homepage else None,
      p.repo.htmlUrl,
      VisibleTags(languages),
      MoreLanguages(languages))
  }

  /** The `+N more` tag of a card with more than three languages reads `+`,
      then the number of languages beyond the third, then ` more`. */
  lemma CardMoreLabel(p: Project)
    requires |p.languages| > MaxTags
    ensures CardOf(p).more.Some?
    ensures var tagText := MoreLabel(CardOf(p).more.value);
      && tagText[0] == '+' && tagText[|tagText| - |" more"|..] == " more"
      && Denotes(tagText[1..|tagText| - |" more"|], |p.languages| - MaxTags)
  {
  }

  /** The body of the `forEach` in `displayProjects` up to the card's
      content, with `description` reassigned in place as the script does. */
  method BuildCard(p: Project) returns (card: Card)
    ensures card == CardOf(p)
  {
    var languages := if |p.languages| > 0 then p.languages else [FallbackLanguage];
    var description := if p.repo.description.Some? && p.repo.description.value != ""
                       then p.repo.description.value else NoDescription;
    if |description| > MaxDescriptionLength {
      description := description[..MaxDescriptionLength] + Ellipsis;
    }
    var liveDemo := if p.repo.homepage.Some? && p.repo.homepage.value != "" then p.repo.homepage else None;
    var tags := languages[..Min(MaxTags, |languages|)];
    var more := None;
    if |languages| > MaxTags {
      more := Some(MoreTag(|languages| - MaxTags, Join(languages[MaxTags..], ", ")));
    }
    card := Card(FormatProjectName(p.repo.name), description, liveDemo, p.repo.htmlUrl, tags, more);
  }

  /** Every card of an enriched project has a non-empty description of at
      most 123 characters, one to three tags that are the project's first
      languages, and a title as long as the repository's name. */
  lemma CardOfEnriched(p: Project)
    requires p.languages != []
    ensures var card := CardOf(p);
      && 0 < |card.description| <= MaxDescriptionLength + |Ellipsis|
      && 1 <= |card.tags| <= MaxTags
      && IsPrefix(card.tags, p.languages)
      && (card.more.Some? <==> |p.languages| > MaxTags)
      && |card.title| == |p.repo.name|
  {
  }
}

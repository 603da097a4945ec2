/** The description shortening shared by the character and manga search replies
    (Mute.Moe/Discord/Modules/Search/CharacterSearch.cs and MangaSearch.cs, which carry
    the same code). Lengths are counted in characters. */
module EmbedDescription {
  import opened Common

  /** The longest description left as it is. */
  const MaxDescriptionLength: nat := 2048
  /** The length of a shortened description. */
  const ShortenedLength: nat := 2047

  const Ellipsis: string := "..."
  const ReadMoreOpen: string := "... <[Read More]("
  const ReadMoreClose: string := ")>"

  /** `Substring(0, 2047 - addon.Length)` with a negative length throws. */
  datatype TruncationError = AddonTooLong(addonLength: nat)

  /** The text appended to a shortened description: an ellipsis, followed by a
      "Read More" link when there is a URL that is not blank. */
  function Addon(url: Option<string>): (a: string)
    ensures |a| >= 3 && a[..3] == Ellipsis
    ensures IsNullOrWhiteSpace(url) ==> a == Ellipsis
    ensures !IsNullOrWhiteSpace(url) ==> |a| == |url.value| + 22 && a[20..20 + |url.value|] == url.value
  {
    if IsNullOrWhiteSpace(url) then Ellipsis
    else Ellipsis + ReadMoreOpen + url.value + ReadMoreClose
  }

  /** The description of an embed: a missing one is empty, one of at most 2048 characters
      is kept, a longer one is cut so that it ends in the addon and is 2047 long. */
  function Shorten(description: Option<string>, url: Option<string>): (r: Result<string, TruncationError>)
    ensures var d := if description.Some? then description.value else "";
      && (|d| <= MaxDescriptionLength ==> r == Success(d))
      && (|d| > MaxDescriptionLength ==> (r.Failure? <==> |Addon(url)| > ShortenedLength))
      && (|d| > MaxDescriptionLength && r.Success? ==>
            && |r.value| == ShortenedLength
            && var keep := ShortenedLength - |Addon(url)|;
               r.value[..keep] == d[..keep] && r.value[keep..] == Addon(url))
  {
    var d := if description.Some? then description.value else "";
    if |d| <= MaxDescriptionLength then Success(d)
    else
      var addon := Addon(url);
      if |addon| > ShortenedLength then Failure(AddonTooLong(|addon|))
      else Success(d[..ShortenedLength - |addon|] + addon)
  }

  /** Shortening fails only for a description over 2048 characters together with a URL
      of more than 2025 characters, whose link makes the addon longer than 2047. */
  lemma ShortenFailsIff(description: Option<string>, url: Option<string>)
    ensures Shorten(description, url).Failure? <==>
      && description.Some? && |description.value| > MaxDescriptionLength
      && !IsNullOrWhiteSpace(url) && |url.value| > 2025
  {
  }
}

/** The `character` command (Mute.Moe/Discord/Modules/Search/CharacterSearch.cs). */
module CharacterSearch {
  import opened Common
  import opened EmbedDescription

  datatype Character = Character(
    familyName: Option<string>,
    givenName: Option<string>,
    description: Option<string>,
    url: Option<string>,
    imageUrl: Option<string>)

  /** The strings an embed for one character receives. */
  datatype CharacterEmbed = CharacterEmbed(
    description: string,
    imageUrl: string,
    author: string,
    footer: string,
    url: string)

  const Footer: string := "\U{1F991} https://anilist.co"

  /** C# renders `null` as the empty string in concatenation and interpolation. */
  function OrEmpty(s: Option<string>): (r: string)
    ensures s.Some? ==> r == s.value
    ensures s.None? ==> r == ""
  {
    if s.Some? then s.value else ""
  }

  /** `StringCharacter`: the family name, one space, the given name. */
  function StringCharacter(c: Character): (r: string)
    ensures |r| == |OrEmpty(c.familyName)| + 1 + |OrEmpty(c.givenName)|
    ensures r[..|OrEmpty(c.familyName)|] == OrEmpty(c.familyName)
    ensures r[|OrEmpty(c.familyName)|] == ' '
    ensures r[|OrEmpty(c.familyName)| + 1..] == OrEmpty(c.givenName)
  {
    OrEmpty(c.familyName) + " " + OrEmpty(c.givenName)
  }

  /** `EmbedCharacter`: fails only when shortening the description fails. */
  function EmbedCharacter(c: Character): (r: Result<CharacterEmbed, TruncationError>)
    ensures r.Failure? <==> Shorten(c.description, c.url).Failure?
    ensures r.Success? ==>
      && r.value.description == Shorten(c.description, c.url).value
      && r.value.author == StringCharacter(c)
      && r.value.imageUrl == OrEmpty(c.imageUrl)
      && r.value.url == OrEmpty(c.url)
      && r.value.footer == Footer
  {
    match Shorten(c.description, c.url)
    case Failure(e) => Failure(e)
    case Success(d) =>
      Success(CharacterEmbed(d, OrEmpty(c.imageUrl), OrEmpty(c.familyName) + " " + OrEmpty(c.givenName), Footer, OrEmpty(c.url)))
  }

  /** `FindCharacter(max, term)`: the first `max` results of the lookup (LINQ `Take`). */
  function FindCharacter(max: int, results: seq<Character>): (r: seq<Character>)
    ensures |r| == if max <= 0 then 0 else if max < |results| then max else |results|
    ensures r == results[..|r|]
  {
    if max <= 0 then [] else if max < |results| then results[..max] else results
  }

  /** `FindCharacters(term)` delegates with `max = 1`: at most the first result. */
  function FindCharacters(results: seq<Character>): (r: seq<Character>)
    ensures r == FindCharacter(1, results)
    ensures r == if results == [] then [] else [results[0]]
  {
    FindCharacter(1, results)
  }
}

/** The `manga` command (Mute.Moe/Discord/Modules/Search/MangaSearch.cs). */
module MangaSearch {
  import opened Common
  import opened EmbedDescription

  datatype Manga = Manga(
    description: Option<string>,
    url: Option<string>,
    imageUrl: Option<string>,
    titleJapanese: Option<string>,
    titleEnglish: Option<string>,
    volumes: Option<int>,
    chapters: Option<int>)

  datatype Author = Author(name: string, url: Option<string>)
  datatype Field = Field(name: string, value: int)

  /** The strings and fields an embed for one manga receives. */
  datatype MangaEmbed = MangaEmbed(
    description: string,
    imageUrl: string,
    title: string,
    titleUrl: Option<string>,
    author: Option<Author>,
    fields: seq<Field>)

  datatype Reply = Message(text: string) | Embed(embed: MangaEmbed)

  const NotFoundMessage: string := "I can't find an manga by that name"
  const UnknownTitle: string := "Unknown Title"

  /** Title, title link and author: with both titles the Japanese one is the author and
      the English one the title; with one title it is the title; with none the title is
      "Unknown Title". */
  function Titles(m: Manga): (r: (string, Option<string>, Option<Author>))
    ensures m.titleJapanese.Some? && m.titleEnglish.Some? ==>
      r == (m.titleEnglish.value, None, Some(Author(m.titleJapanese.value, m.url)))
    ensures m.titleEnglish.Some? && m.titleJapanese.None? ==> r == (m.titleEnglish.value, m.url, None)
    ensures m.titleEnglish.None? && m.titleJapanese.Some? ==> r == (m.titleJapanese.value, m.url, None)
    ensures m.titleEnglish.None? && m.titleJapanese.None? ==> r == (UnknownTitle, m.url, None)
  {
    if m.titleJapanese.Some? && m.titleEnglish.Some? then
      (m.titleEnglish.value, None, Some(Author(m.titleJapanese.value, m.url)))
    else if m.titleEnglish.Some? != m.titleJapanese.Some? then
      (if m.titleEnglish.Some? then m.titleEnglish.value else m.titleJapanese.value, m.url, None)
    else
      (UnknownTitle, m.url, None)
  }

  /** The Volumes and Chapters fields, each present only when its value is. */
  function Fields(m: Manga): (r: seq<Field>)
    ensures |r| == (if m.volumes.Some? then 1 else 0) + (if m.chapters.Some? then 1 else 0)
    ensures m.volumes.Some? ==> r[0] == Field("Volumes", m.volumes.value)
    ensures m.chapters.Some? ==> r[|r| - 1] == Field("Chapters", m.chapters.value)
  {
    (if m.volumes.Some? then [Field("Volumes", m.volumes.value)] else []) +
    (if m.chapters.Some? then [Field("Chapters", m.chapters.value)] else [])
  }

  /** `FindManga`: no lookup result gives the "can't find" message; otherwise an embed
      whose description is shortened, which fails only when shortening fails. */
  function FindManga(lookup: Option<Manga>): (r: Result<Reply, TruncationError>)
    ensures lookup.None? ==> r == Success(Message(NotFoundMessage))
    ensures lookup.Some? ==> (r.Failure? <==> Shorten(lookup.value.description, lookup.value.url).Failure?)
    ensures lookup.Some? && r.Success? ==>
      && r.value.Embed?
      && r.value.embed.description == Shorten(lookup.value.description, lookup.value.url).value
      && r.value.embed.imageUrl == (if lookup.value.imageUrl.Some? then lookup.value.imageUrl.value else "")
      && (r.value.embed.title, r.value.embed.titleUrl, r.value.embed.author) == Titles(lookup.value)
      && r.value.embed.fields == Fields(lookup.value)
  {
    match lookup
    case None => Success(Message(NotFoundMessage))
    case Some(m) =>
      match Shorten(m.description, m.url)
      case Failure(e) => Failure(e)
      case Success(d) =>
        var t := Titles(m);
        var image := if m.imageUrl.Some? then m.imageUrl.value else "";
        Success(Embed(MangaEmbed(d, image, t.0, t.1, t.2, Fields(m))))
  }
}

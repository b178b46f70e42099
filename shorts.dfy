/**
 * The pure text logic inside the bot's publish step (index.js): metadata
 * defaulting, `#shorts` title normalisation, description composition, and
 * the random pick of one listed file.
 */
module Shorts {
  import opened Wrappers
  import opened Text

  /** The platform marker every published title must carry. */
  const Marker: string := "#shorts"

  /** The fixed promotional line that closes every description. */
  const StaticDesc: string := "Satisfying video #shorts #asmr #cutting"

  /** The per-file session record stored as JSON in the Drive file's description. */
  datatype Metadata = Metadata(userId: Option<int>, title: string, description: string, hashtags: string)

  /** The record used when the stored JSON cannot be parsed. */
  const Defaults: Metadata := Metadata(None, "Short", "", "")

  /**
   * What `JSON.parse` makes of a file's description attribute: a syntax error
   * (or no attribute at all), a record with a text title, or a value whose
   * `title` is missing or not text.
   */
  datatype MetaAttr = Unparsable | Record(record: Metadata) | Untitled

  /** Reading the title (line 90) or lower-casing it (line 91) throws when the parsed value has no text title. */
  datatype MetaError = TitleNotText

  /**
   * The metadata the run works with: a parse failure is swallowed and the
   * defaults stay; a parsed record replaces them, even one without a title,
   * which then throws when the title is read.
   */
  function ResolveMetadata(a: MetaAttr): (r: Result<Metadata, MetaError>)
    ensures r.Failure? <==> a.Untitled?
    ensures a.Unparsable? ==> r.value.title == "Short" && r.value.description == ""
                              && r.value.hashtags == "" && r.value.userId.None?
    ensures a.Record? ==> r.value == a.record
  {
    match a
    case Unparsable => Success(Defaults)
    case Record(m) => Success(m)
    case Untitled => Failure(TitleNotText)
  }

  /** `title.toLowerCase().includes('#shorts')`. */
  predicate HasMarker(title: string)
  {
    Contains(Lower(title), Marker)
  }

  /** Appends " #shorts" unless the title already carries the marker in any letter case. */
  function NormalizeTitle(title: string): string
  {
    if HasMarker(title) then title else title + " #shorts"
  }

  /**
   * The normalised title carries the marker and starts with the original title;
   * it is the original exactly when that already carried the marker, and
   * otherwise the original, a space and the marker.
   */
  lemma NormalizeTitleMarks(title: string)
    ensures var r := NormalizeTitle(title);
      && HasMarker(r)
      && title <= r
      && (r == title <==> HasMarker(title))
      && (r != title ==> r == title + " " + Marker)
  {
    if !HasMarker(title) {
      var r := title + " #shorts";
      LowerConcat(title + " ", Marker);
      assert Lower(Marker) == Marker;
      assert r == (title + " ") + Marker;
      var k := |title| + 1;
      assert Lower(r)[k..k + |Marker|] == Marker;
      assert OccursAt(Lower(r), Marker, k);
    }
  }

  /** Normalising twice is normalising once. */
  lemma NormalizeTitleIdempotent(title: string)
    ensures NormalizeTitle(NormalizeTitle(title)) == NormalizeTitle(title)
  {
    NormalizeTitleMarks(title);
  }

  /** A character that lower-cases to '#' is '#'. */
  lemma LowerToHash(c: char)
    requires LowerChar(c) == '#'
    ensures c == '#'
  {
  }

  /** A title carrying the marker has a character that is not white space. */
  lemma MarkedTitleNotBlank(title: string)
    requires HasMarker(title)
    ensures !AllSpace(title)
  {
    var k :| 0 <= k <= |Lower(title)| - |Marker| && OccursAt(Lower(title), Marker, k);
    assert Lower(title)[k] == Lower(title)[k..k + |Marker|][0] == '#';
    LowerToHash(title[k]);
  }

  /** Trimming the front of `a + b` when `b` starts with a non-space character only touches `a`. */
  lemma TrimStartBeforeWord(a: string, b: string)
    requires b != [] && !IsSpace(b[0])
    ensures TrimStart(a + b) == TrimStart(a) + b
  {
    if AllSpace(a) {
      TrimStartSkipsSpace(a, b);
      TrimStartOfSpace(a);
    } else {
      TrimStartConcat(a, b);
    }
  }

  /** `${title}\n\n${description}\n\n${staticDesc}`.trim(). */
  function ComposeDescription(title: string, description: string): string
  {
    Trim(title + "\n\n" + description + "\n\n" + StaticDesc)
  }

  /**
   * The description ends with the promotional line and starts with no white
   * space; when the title is not blank it is the title without its leading
   * white space, two newlines, the description, two newlines and the
   * promotional line.
   */
  lemma ComposeDescriptionShape(title: string, description: string)
    ensures var r := ComposeDescription(title, description);
      && |r| >= |StaticDesc| && r[|r| - |StaticDesc|..] == StaticDesc
      && !IsSpace(r[0])
      && (!AllSpace(title) ==> r == TrimStart(title) + "\n\n" + description + "\n\n" + StaticDesc)
  {
    var s := title + "\n\n" + description + "\n\n" + StaticDesc;
    assert s == Head(title, description) + StaticDesc;
    TrimTemplate(Head(title, description));
    if !AllSpace(title) {
      TrimHead(title, description);
    }
  }

  /** The text before the promotional line. */
  function Head(title: string, description: string): string
  {
    title + "\n\n" + description + "\n\n"
  }

  lemma TrimTemplate(head: string)
    ensures var r := Trim(head + StaticDesc);
      r == TrimStart(head) + StaticDesc && !IsSpace(r[0])
  {
    TrimStartBeforeWord(head, StaticDesc);
    var t := TrimStart(head) + StaticDesc;
    assert t[|t| - 1] == 'g';
    TrimEndKeeps(t);
    assert t[0] == (if TrimStart(head) == [] then StaticDesc[0] else TrimStart(head)[0]);
  }

  lemma TrimHead(title: string, description: string)
    requires !AllSpace(title)
    ensures TrimStart(Head(title, description)) + StaticDesc
            == TrimStart(title) + "\n\n" + description + "\n\n" + StaticDesc
  {
    var body := "\n\n" + description + "\n\n";
    var ts := TrimStart(title);
    assert Head(title, description) == title + body by {
      ConcatAssoc(title, "\n\n", description, "\n\n");
    }
    assert TrimStart(title + body) == ts + body by {
      TrimStartConcat(title, body);
    }
    ConcatAssoc(ts, "\n\n", description, "\n\n");
  }

  lemma ConcatAssoc(a: string, b: string, c: string, d: string)
    ensures a + (b + c + d) == a + b + c + d
  {
  }

  /** The description of a normalised title keeps the whole title, minus leading white space. */
  lemma DescriptionOfNormalizedTitle(title: string, description: string)
    ensures ComposeDescription(NormalizeTitle(title), description)
            == TrimStart(NormalizeTitle(title)) + "\n\n" + description + "\n\n" + StaticDesc
  {
    NormalizeTitleMarks(title);
    MarkedTitleNotBlank(NormalizeTitle(title));
    ComposeDescriptionShape(NormalizeTitle(title), description);
  }

  /** `Math.floor(Math.random() * n)` for a draw in [0, 1): an index of the listing. */
  function PickIndex(rand: real, n: nat): (i: nat)
    requires 0.0 <= rand < 1.0
    requires n > 0
    ensures i < n
    ensures i as real <= rand * n as real < (i + 1) as real
  {
    (rand * n as real).Floor
  }

  /** Every index is picked by the draws in [k/n, (k+1)/n): no listed file is excluded. */
  lemma PickIndexReaches(k: nat, n: nat)
    requires k < n
    ensures 0.0 <= k as real / n as real < 1.0
    ensures PickIndex(k as real / n as real, n) == k
  {
    var r := k as real / n as real;
    assert r * n as real == k as real;
  }
}

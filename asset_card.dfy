/** One card of the gallery (components/AssetCard.tsx): what the card shows
    for an asset, as a value. The markup, icons and styling classes are not
    modelled; the decisions the card takes are: the spinner, the error panel
    with its retry button, the picture, the style badge, the status label and
    the download link with its file name. */
module AssetCard {
  import opened Types
  import opened Text

  /** The status pill's text. */
  function StatusLabel(status: Status): (text: string) {
    match status
    case Completed => "Pronto"
    case Loading => "Processando"
    case Error => "Erro"
    case Pending => "Pendente"
  }

  /** Each status has its own label, so the pill tells them apart. */
  lemma StatusLabelInjective(s: Status, t: Status)
    ensures StatusLabel(s) == StatusLabel(t) <==> s == t
  {
    if s != t {
      assert |StatusLabel(s)| != |StatusLabel(t)|;
    }
  }

  /** The badge: the style's name up to its first slash. */
  function Badge(style: ImageStyle): (badge: string)
    ensures badge <= StyleName(style)
    ensures '/' !in badge
    ensures |badge| == |StyleName(style)| || StyleName(style)[|badge|] == '/'
  {
    FirstPiece(StyleName(style), '/');
    Split(StyleName(style), '/')[0]
  }

  /** A name whose first slash is at index `i` has the part before it as
      its badge. */
  lemma BadgeBeforeSlash(name: string, i: nat)
    requires i < |name| && name[i] == '/' && '/' !in name[..i]
    ensures Split(name, '/')[0] == name[..i]
  {
  }

  /** The dark rustic preset's badge is the part before its slash. */
  lemma BadgeRustic()
    ensures Badge(Rustic) == "Rústico"
  {
    var name := StyleName(Rustic);
    assert name[..7] == "Rústico";
    BadgeBeforeSlash(name, 7);
  }

  /** The light modern preset's badge is the part before its slash. */
  lemma BadgeModern()
    ensures Badge(Modern) == "Claro"
  {
    var name := StyleName(Modern);
    assert name[..5] == "Claro";
    BadgeBeforeSlash(name, 5);
  }

  /** The social-media preset has no slash: its badge is its whole name. */
  lemma BadgeSocial()
    ensures Badge(Social) == "Social Media (Top View)"
  {
    var name := StyleName(Social);
    assert '/' !in name;
    assert Split(name, '/') == [name];
  }

  /** The download file name: `pharma-asset-`, the name with every run of
      white space turned into one dash and lower-cased, then `.png`. */
  function DownloadName(name: string): (fileName: string)
    ensures |fileName| >= 17
    ensures fileName[..13] == "pharma-asset-"
    ensures fileName[|fileName| - 4..] == ".png"
    ensures NoWhitespace(fileName[13..|fileName| - 4])
    ensures forall k :: 13 <= k < |fileName| - 4 ==> !IsUpper(fileName[k])
  {
    var middle := Lower(DashWhitespaceRuns(name));
    LowerProperties(DashWhitespaceRuns(name));
    var fileName := "pharma-asset-" + middle + ".png";
    assert fileName[13..|fileName| - 4] == middle;
    fileName
  }

  /** A name without white space is only lower-cased. */
  lemma DownloadNameOneWord(name: string)
    requires NoWhitespace(name)
    ensures DownloadName(name) == "pharma-asset-" + Lower(name) + ".png"
  {
    DashRunsIdentity(name);
  }

  lemma LowerConcat(a: string, b: string)
    ensures Lower(a + b) == Lower(a) + Lower(b)
  {
  }

  /** Two words around a run of white space keep their letters, and the run
      becomes one dash. */
  lemma DashRunsTwoWords(a: string, gap: string, b: string)
    requires a != [] && b != [] && NoWhitespace(a) && NoWhitespace(b)
    requires gap != [] && IsBlank(gap)
    ensures DashWhitespaceRuns(a + gap + b) == a + "-" + b
  {
    var front := a + gap;
    DashRunsConcat(a, gap);
    assert front[|front| - 1] == gap[|gap| - 1];
    DashRunsConcat(front, b);
    DashRunsIdentity(a);
    DashRunsIdentity(b);
    DashRunsOfRun(gap);
  }

  /** Two words separated by any run of white space are joined by exactly
      one dash. */
  lemma DownloadNameTwoWords(a: string, gap: string, b: string)
    requires a != [] && b != [] && NoWhitespace(a) && NoWhitespace(b)
    requires gap != [] && IsBlank(gap)
    ensures DownloadName(a + gap + b) == "pharma-asset-" + Lower(a) + "-" + Lower(b) + ".png"
  {
    var dashed := a + "-" + b;
    DashRunsTwoWords(a, gap, b);
    var front := a + "-";
    LowerConcat(front, b);
    LowerConcat(a, "-");
    assert Lower("-") == "-";
    assert Lower(dashed) == Lower(a) + "-" + Lower(b);
  }

  /** The picture: its source and its alternative text. */
  datatype Picture = Picture(src: string, alt: string)

  /** The download link: its target (the asset's image, which may be
      missing) and its file name. */
  datatype Download = Download(href: Option<string>, fileName: string)

  /** What a card shows: the spinner, the error panel (with the id its retry
      button reports), the picture, the badge, the status label and the
      download link. */
  datatype Card = Card(
    spinner: bool,
    retryFor: Option<string>,
    picture: Option<Picture>,
    badge: string,
    statusLabel: string,
    download: Option<Download>
  )

  /** A non-empty image URL, as a string is truthy in JavaScript. */
  predicate HasPicture(asset: Asset) {
    asset.status == Completed && asset.imageUrl.Some? && asset.imageUrl.value != ""
  }

  /** The card of an asset. The three visuals come from three independent
      conditions, yet at most one shows; the retry button exists exactly on
      failed assets and reports their id; the picture needs a completed
      asset with a non-empty image; the download link exists exactly on
      completed assets, whether or not there is an image to point at. */
  function Render(asset: Asset): (card: Card)
    ensures card.spinner <==> asset.status == Loading
    ensures card.retryFor.Some? <==> asset.status == Error
    ensures card.retryFor.Some? ==> card.retryFor.value == asset.id
    ensures card.picture.Some? <==> HasPicture(asset)
    ensures card.picture.Some? ==>
              card.picture.value == Picture(asset.imageUrl.value, asset.name)
    ensures !(card.spinner && card.retryFor.Some?)
    ensures !(card.spinner && card.picture.Some?)
    ensures !(card.retryFor.Some? && card.picture.Some?)
    ensures card.badge == Badge(asset.style)
    ensures card.statusLabel == StatusLabel(asset.status)
    ensures card.download.Some? <==> asset.status == Completed
    ensures card.download.Some? ==>
              card.download.value == Download(asset.imageUrl, DownloadName(asset.name))
  {
    Card(
      spinner := asset.status == Loading,
      retryFor := if asset.status == Error then Some(asset.id) else None,
      picture := if asset.status == Completed && asset.imageUrl.Some? && asset.imageUrl.value != ""
                 then Some(Picture(asset.imageUrl.value, asset.name))
                 else None,
      badge := Badge(asset.style),
      statusLabel := StatusLabel(asset.status),
      download := if asset.status == Completed
                  then Some(Download(asset.imageUrl, DownloadName(asset.name)))
                  else None
    )
  }

  /** A completed asset whose image is the empty string shows no picture but
      still offers its download. */
  lemma EmptyImageStillDownloadable(id: string, name: string, style: ImageStyle)
    ensures Render(Asset(id, name, Completed, Some(""), style)).picture.None?
    ensures Render(Asset(id, name, Completed, Some(""), style)).download.Some?
  {
  }
}

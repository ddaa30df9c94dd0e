/**
 * Choosing the input image of a slot: the radio labels `"{i+1}. {name}"`
 * built from the gallery, the lookup of the chosen label's position
 * (`list.index`), and the precedence of a gallery choice over a typed URL.
 */
module Selection {
  import opened ImageGallery

  datatype Option<T> = None | Some(value: T)

  /** What the input returns: `(file, "file")`, `(url, "url")` or `(None, None)`. */
  datatype ImageChoice = FromGallery(file: UploadedFile) | FromUrl(url: string) | NoImage

  // ---------------------------------------------------------------------------
  // Decimal numerals, as Python's `str` writes a non-negative integer.

  function DigitChar(d: nat): char
    requires d < 10
  {
    (48 + d) as char
  }

  function Decimal(n: nat): (s: string)
    ensures |s| > 0
    ensures forall k :: 0 <= k < |s| ==> '0' <= s[k] <= '9'
    ensures n >= 10 ==> |s| >= 2
    decreases n
  {
    if n < 10 then [DigitChar(n)] else Decimal(n / 10) + [DigitChar(n % 10)]
  }

  /** Two numbers with the same numeral are the same number. */
  lemma {:induction false} DecimalInjective(a: nat, b: nat)
    requires Decimal(a) == Decimal(b)
    ensures a == b
    decreases a
  {
    var s := Decimal(a);
    var last := |s| - 1;
    if a < 10 && b < 10 {
      assert DigitChar(a) == s[0] == DigitChar(b);
    } else if a >= 10 && b >= 10 {
      assert Decimal(a / 10) == s[..last] == Decimal(b / 10);
      DecimalInjective(a / 10, b / 10);
      assert DigitChar(a % 10) == s[last] == DigitChar(b % 10);
    }
  }

  // ---------------------------------------------------------------------------
  // Radio labels.

  /**
   * The label of the entry at position `i`. It gives back its position: the
   * numeral before its first '.' is the position plus one, and the name follows
   * the ". " after that numeral.
   */
  function Label(i: nat, f: UploadedFile): (s: string)
    ensures BeforeDot(s) == Decimal(i + 1)
    ensures |s| == |Decimal(i + 1)| + 2 + |f.name|
    ensures s[|Decimal(i + 1)|..|Decimal(i + 1)| + 2] == ". "
    ensures s[|Decimal(i + 1)| + 2..] == f.name
  {
    var numeral := Decimal(i + 1);
    BeforeDotOfNumeral(numeral, ". " + f.name);
    assert numeral + ". " + f.name == numeral + (". " + f.name);
    numeral + ". " + f.name
  }

  /** One label per gallery entry, in gallery order. */
  function Labels(g: seq<UploadedFile>): (ls: seq<string>)
    ensures |ls| == |g|
    ensures forall i :: 0 <= i < |g| ==> ls[i] == Label(i, g[i])
  {
    seq(|g|, i requires 0 <= i < |g| => Label(i, g[i]))
  }

  /** The text before the first '.' of `s` (all of `s` when it has none). */
  function BeforeDot(s: string): string
  {
    if s == [] || s[0] == '.' then [] else [s[0]] + BeforeDot(s[1..])
  }

  lemma {:induction false} BeforeDotOfNumeral(digits: string, rest: string)
    requires forall k :: 0 <= k < |digits| ==> '0' <= digits[k] <= '9'
    requires |rest| > 0 && rest[0] == '.'
    ensures BeforeDot(digits + rest) == digits
  {
    if digits == [] {
      assert digits + rest == rest;
    } else {
      assert (digits + rest)[1..] == digits[1..] + rest;
      BeforeDotOfNumeral(digits[1..], rest);
    }
  }

  /** Labels of different positions differ, whatever the names. */
  lemma LabelInjective(i: nat, j: nat, a: UploadedFile, b: UploadedFile)
    requires Label(i, a) == Label(j, b)
    ensures i == j
  {
    DecimalInjective(i + 1, j + 1);
  }

  /** Python's `list.index`: the first position holding `x`, `None` where it raises ValueError. */
  function IndexOf(xs: seq<string>, x: string): (r: Option<nat>)
    ensures r.None? <==> x !in xs
    ensures r.Some? ==> r.value < |xs| && xs[r.value] == x
    ensures r.Some? ==> forall k :: 0 <= k < r.value ==> xs[k] != x
  {
    if xs == [] then None
    else if xs[0] == x then Some(0)
    else match IndexOf(xs[1..], x)
      case None => None
      case Some(k) => Some(k + 1)
  }

  /** The label of entry `i` leads back to entry `i`. */
  lemma SelectByLabel(g: seq<UploadedFile>, i: nat)
    requires i < |g|
    ensures IndexOf(Labels(g), Labels(g)[i]) == Some(i)
  {
    var r := IndexOf(Labels(g), Labels(g)[i]);
    assert r.Some?;
    if r.value != i {
      LabelInjective(r.value, i, g[r.value], g[i]);
    }
  }

  // ---------------------------------------------------------------------------
  // The result.

  /**
   * The value the input returns once the gallery is settled: the chosen
   * gallery entry when the gallery is shown and a label is chosen, else the
   * URL when one was typed, else nothing. A chosen label is always one of the
   * labels the radio was given.
   */
  function ChooseImage(g: seq<UploadedFile>, chosen: Option<string>, url: string): (c: ImageChoice)
    requires |g| > 0 && chosen.Some? ==> chosen.value in Labels(g)
    ensures c.FromGallery? <==> |g| > 0 && chosen.Some?
    ensures c.FromGallery? ==> c.file in g
    ensures c.FromUrl? <==> !c.FromGallery? && url != ""
    ensures c.FromUrl? ==> c.url == url
  {
    if |g| > 0 && chosen.Some? then
      var index := IndexOf(Labels(g), chosen.value);
      FromGallery(g[index.value])
    else if url != "" then
      FromUrl(url)
    else
      NoImage
  }

  /** Choosing the label of entry `i` yields entry `i`, whatever the URL field holds. */
  lemma ChosenLabelPicksEntry(g: seq<UploadedFile>, i: nat, url: string)
    requires i < |g|
    ensures ChooseImage(g, Some(Labels(g)[i]), url) == FromGallery(g[i])
  {
    SelectByLabel(g, i);
  }
}

/**
 * The embedding service (app/services/embedding_service.py): text
 * normalisation before encoding, and the all-zero fallback vector that
 * stands in for every failed or pointless encoding.  The sentence encoder
 * itself is a parameter.
 */
module Embedding {
  import opened Wrappers
  import opened Text

  /** Dimension of the Korean sentence-embedding model, and of the fallback vector. */
  const Dimension: nat := 768

  /** Longest text handed to the encoder. */
  const MaxTextLength: nat := 1000

  type Vector = seq<real>

  /** The encoder: `None` stands for an exception raised while encoding. */
  type Encoder = string -> Option<Vector>

  /** Python's `[0.0] * 768`. */
  function ZeroVector(): (v: Vector)
    ensures |v| == Dimension
    ensures forall i :: 0 <= i < |v| ==> v[i] == 0.0
  {
    seq(Dimension, _ => 0.0)
  }

  /** `' '.join(text.split())`: the words of `text` separated by single spaces. */
  function Normalized(text: string): (n: string)
    ensures IsCollapsed(n)
    ensures |n| <= |text|
    ensures Words(n) == Words(text)
  {
    JoinWordsCollapsed(Words(text));
    NormalizedNoLonger(text);
    WordsOfJoin(Words(text));
    Join(Words(text), " ")
  }

  /**
   * `_preprocess_text`: strip, turn CR and LF into spaces, collapse runs of
   * whitespace, and cut to the first 1000 characters.
   */
  function Preprocess(text: string): (r: string)
    ensures |r| <= MaxTextLength
    ensures forall i :: 0 <= i < |r| ==> r[i] != '\n' && r[i] != '\r'
    ensures forall i :: 0 <= i < |r| ==> IsSpace(r[i]) ==> r[i] == ' '
    ensures forall i :: 0 <= i < |r| - 1 ==> !DoubleSpaceAt(r, i)
    ensures r == [] || r[0] != ' '
    ensures IsBlank(text) ==> r == ""
  {
    if text == "" then ""
    else
      var stripped := Strip(text);
      var oneLine := ReplaceChar(ReplaceChar(stripped, '\n', ' '), '\r', ' ');
      var collapsed := Join(Words(oneLine), " ");
      JoinWordsCollapsed(Words(oneLine));
      CollapsedPrefix(collapsed, MaxTextLength);
      BlankPreprocessed(text, stripped, oneLine);
      Take(collapsed, MaxTextLength)
  }

  /** A prefix of a collapsed string keeps all of its shape but the last-character rule. */
  lemma {:induction false} CollapsedPrefix(s: string, n: nat)
    requires IsCollapsed(s)
    ensures var r := Take(s, n);
      && (forall i :: 0 <= i < |r| ==> r[i] != '\n' && r[i] != '\r')
      && (forall i :: 0 <= i < |r| ==> IsSpace(r[i]) ==> r[i] == ' ')
      && (forall i :: 0 <= i < |r| - 1 ==> !DoubleSpaceAt(r, i))
      && (r == [] || r[0] != ' ')
  {
    var r := Take(s, n);
    assert IsSpace('\n') && IsSpace('\r');
    forall i | 0 <= i < |r| ensures r[i] == s[i] {
    }
    forall i | 0 <= i < |r| - 1 ensures !DoubleSpaceAt(r, i) {
      assert !DoubleSpaceAt(s, i);
    }
  }

  /** Blank text leaves nothing once stripped. */
  lemma {:induction false} BlankPreprocessed(text: string, stripped: string, oneLine: string)
    requires stripped == Strip(text)
    requires oneLine == ReplaceChar(ReplaceChar(stripped, '\n', ' '), '\r', ' ')
    ensures IsBlank(text) ==> Join(Words(oneLine), " ") == ""
  {
    if IsBlank(text) {
      assert oneLine == [];
      assert TrimLeft(oneLine, IsSpace) == [];
    }
  }

  /** `_preprocess_text` is the first 1000 characters of the text's words joined by single spaces. */
  lemma {:induction false} PreprocessIsTakeOfNormalized(text: string)
    ensures Preprocess(text) == Take(Normalized(text), MaxTextLength)
  {
    if text != "" {
      var stripped := Strip(text);
      var noLf := ReplaceChar(stripped, '\n', ' ');
      WordsReplaceSpace(noLf, '\r');
      WordsReplaceSpace(stripped, '\n');
      WordsStrip(text);
    }
  }

  /** Normalising twice is normalising once. */
  lemma {:induction false} NormalizedIdempotent(text: string)
    ensures Normalized(Normalized(text)) == Normalized(text)
  {
    WordsOfJoin(Words(text));
  }

  /** When the normalised text fits in 1000 characters, preprocessing is idempotent. */
  lemma {:induction false} PreprocessIdempotentWhenShort(text: string)
    requires |Normalized(text)| <= MaxTextLength
    ensures Preprocess(Preprocess(text)) == Preprocess(text)
  {
    PreprocessIsTakeOfNormalized(text);
    PreprocessIsTakeOfNormalized(Normalized(text));
    NormalizedIdempotent(text);
  }

  /**
   * Preprocessing is not idempotent in general: when the cut at 1000
   * characters leaves a trailing space, preprocessing again removes it.
   */
  lemma {:induction false} PreprocessAgainDropsTrailingSpace(text: string)
    requires Preprocess(text) != [] && Preprocess(text)[|Preprocess(text)| - 1] == ' '
    ensures Preprocess(Preprocess(text)) != Preprocess(text)
    ensures |Preprocess(Preprocess(text))| < |Preprocess(text)|
  {
    TrailingSpaceDropped(Preprocess(text));
  }

  /** Text ending in a space gets shorter under preprocessing. */
  lemma {:induction false} TrailingSpaceDropped(r: string)
    requires r != [] && r[|r| - 1] == ' '
    ensures |Preprocess(r)| < |r|
  {
    var body := r[..|r| - 1];
    assert r == body + " ";
    assert Words(r) == Words(body) by {
      WordsAppendBlank(body, " ");
    }
    assert |Normalized(r)| < |r| by {
      NormalizedNoLonger(body);
    }
    PreprocessIsTakeOfNormalized(r);
  }

  /**
   * `generate_embedding`: the zero vector for empty or whitespace-only text
   * and whenever the encoder raises; otherwise the encoding of the
   * preprocessed text.
   */
  function GenerateEmbedding(text: string, encode: Encoder): (v: Vector)
    ensures IsBlank(text) ==> v == ZeroVector()
    ensures !IsBlank(text) && encode(Preprocess(text)).None? ==> v == ZeroVector()
    ensures !IsBlank(text) && encode(Preprocess(text)).Some? ==> v == encode(Preprocess(text)).value
  {
    if IsBlank(text) then ZeroVector()
    else
      match encode(Preprocess(text))
      case Some(e) => e
      case None => ZeroVector()
  }

  /** The batch encoding raises when encoding any of the preprocessed texts raises. */
  predicate BatchFails(texts: seq<string>, encode: Encoder)
  {
    exists i :: 0 <= i < |texts| && encode(Preprocess(texts[i])).None?
  }

  /**
   * `generate_batch_embeddings`: `[]` for no texts; one zero vector per text
   * when the batch encoding raises; otherwise one encoding per text, in order.
   */
  function GenerateBatchEmbeddings(texts: seq<string>, encode: Encoder): (vs: seq<Vector>)
    ensures |vs| == |texts|
    ensures BatchFails(texts, encode) ==> forall i :: 0 <= i < |vs| ==> vs[i] == ZeroVector()
    ensures !BatchFails(texts, encode) ==>
      forall i :: 0 <= i < |vs| ==> Some(vs[i]) == encode(Preprocess(texts[i]))
  {
    if |texts| == 0 then []
    else if BatchFails(texts, encode) then seq(|texts|, _ => ZeroVector())
    else seq(|texts|, i requires 0 <= i < |texts| => encode(Preprocess(texts[i])).value)
  }

  /**
   * A successful batch agrees, text by text, with single encoding on every
   * text that is not blank (a blank text is encoded in a batch, but gets
   * the zero vector alone).
   */
  lemma {:induction false} BatchAgreesWithSingle(texts: seq<string>, encode: Encoder, i: nat)
    requires i < |texts| && !BatchFails(texts, encode) && !IsBlank(texts[i])
    ensures GenerateBatchEmbeddings(texts, encode)[i] == GenerateEmbedding(texts[i], encode)
  {
  }
}

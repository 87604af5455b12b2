/**
 * The Product entity: a mutable record with a getter and a setter per field,
 * and the Bean Validation constraints declared on its fields.
 */
module Products {
  import opened Wrappers

  /**
   * The field values of one Product. `None` stands for Java's null; the price
   * is an exact decimal (a `real`), never a float.
   */
  datatype ProductData = ProductData(
    id: Option<int>,
    name: Option<string>,
    price: Option<real>,
    stock: Option<int>)

  /** A Product entity object, whose fields its setters change in place. */
  class Product {
    var id: Option<int>
    var name: Option<string>
    var price: Option<real>
    var stock: Option<int>

    /** The current values of all four fields. */
    function Data(): ProductData
      reads this
    {
      ProductData(id, name, price, stock)
    }

    /** The implicit no-argument constructor: every field is null. */
    constructor ()
      ensures Data() == ProductData(None, None, None, None)
    {
      id, name, price, stock := None, None, None, None;
    }

    /** An entity materialised from a stored row. */
    constructor Load(d: ProductData)
      ensures Data() == d
    {
      id, name, price, stock := d.id, d.name, d.price, d.stock;
    }

    function GetId(): Option<int> reads this { id }
    function GetName(): Option<string> reads this { name }
    function GetPrice(): Option<real> reads this { price }
    function GetStock(): Option<int> reads this { stock }

    method SetId(v: Option<int>)
      modifies this
      ensures GetId() == v
      ensures Data() == old(Data()).(id := v)
    {
      id := v;
    }

    method SetName(v: Option<string>)
      modifies this
      ensures GetName() == v
      ensures Data() == old(Data()).(name := v)
    {
      name := v;
    }

    method SetPrice(v: Option<real>)
      modifies this
      ensures GetPrice() == v
      ensures Data() == old(Data()).(price := v)
    {
      price := v;
    }

    method SetStock(v: Option<int>)
      modifies this
      ensures GetStock() == v
      ensures Data() == old(Data()).(stock := v)
    {
      stock := v;
    }
  }

  // ---------------------------------------------------------------------------
  // Whitespace as java.lang.String.trim() sees it

  /** `trim()` treats every character at or below U+0020 as whitespace. */
  predicate IsTrimmable(c: char) {
    c <= ' '
  }

  predicate AllTrimmable(s: string) {
    forall i :: 0 <= i < |s| ==> IsTrimmable(s[i])
  }

  /** `trim()`'s first scan: from `st`, the index of the first non-whitespace character, or `|s|`. */
  function TrimStartIndex(s: string, st: nat): (r: nat)
    requires st <= |s|
    ensures st <= r <= |s|
    ensures forall i :: st <= i < r ==> IsTrimmable(s[i])
    ensures r < |s| ==> !IsTrimmable(s[r])
    decreases |s| - st
  {
    if st < |s| && IsTrimmable(s[st]) then TrimStartIndex(s, st + 1) else st
  }

  /** `trim()`'s second scan: moves `len` down past whitespace, never below `st`. */
  function TrimEndIndex(s: string, st: nat, len: nat): (r: nat)
    requires st <= len <= |s|
    ensures st <= r <= len
    ensures forall i :: r <= i < len ==> IsTrimmable(s[i])
    ensures st < r ==> !IsTrimmable(s[r - 1])
  {
    if st < len && IsTrimmable(s[len - 1]) then TrimEndIndex(s, st, len - 1) else len
  }

  /**
   * `s.trim()`: the slice of `s` left once the leading and trailing whitespace
   * is dropped; it is empty, or starts and ends with a non-whitespace character.
   */
  function Trim(s: string): (t: string)
    ensures exists i, j ::
              && 0 <= i <= j <= |s| && t == s[i..j]
              && (forall k :: 0 <= k < i ==> IsTrimmable(s[k]))
              && (forall k :: j <= k < |s| ==> IsTrimmable(s[k]))
    ensures t == [] <==> AllTrimmable(s)
    ensures t != [] ==> !IsTrimmable(t[0]) && !IsTrimmable(t[|t| - 1])
  {
    var st := TrimStartIndex(s, 0);
    var len := TrimEndIndex(s, st, |s|);
    assert st < len ==> s[st..len][0] == s[st] && s[st..len][len - st - 1] == s[len - 1];
    s[st..len]
  }

  // ---------------------------------------------------------------------------
  // The field constraints

  /** `@NotNull`. */
  predicate NotNull<T>(v: Option<T>) {
    v.Some?
  }

  /** `@NotBlank`, as the reference validator checks it: not null and `trim().length() > 0`. */
  predicate NotBlank(v: Option<string>) {
    v.Some? && |Trim(v.value)| > 0
  }

  /** `@DecimalMin("0.0")` (inclusive); null passes, as for every Bean Validation bound. */
  predicate DecimalMinZero(v: Option<real>) {
    v.None? || v.value >= 0.0
  }

  /** `@Min(0)`; null passes. */
  predicate MinZero(v: Option<int>) {
    v.None? || v.value >= 0
  }

  /** All constraints declared on the fields of Product. The id carries none. */
  predicate Valid(d: ProductData) {
    && NotBlank(d.name)
    && NotNull(d.price) && DecimalMinZero(d.price)
    && NotNull(d.stock) && MinZero(d.stock)
  }

  /** A name is not blank iff it is present and has a character above U+0020. */
  lemma NotBlankMeans(v: Option<string>)
    ensures NotBlank(v) <==> v.Some? && exists i :: 0 <= i < |v.value| && v.value[i] > ' '
  {
  }

  /** What a valid Product is, field by field. */
  lemma ValidMeans(d: ProductData)
    ensures Valid(d) <==>
      && d.name.Some? && (exists i :: 0 <= i < |d.name.value| && d.name.value[i] > ' ')
      && d.price.Some? && d.price.value >= 0.0
      && d.stock.Some? && d.stock.value >= 0
  {
    NotBlankMeans(d.name);
  }

  /** A whitespace-only name is blank, so a Product carrying it is not valid. */
  lemma WhitespaceNameInvalid(d: ProductData)
    requires d.name.Some? && AllTrimmable(d.name.value)
    ensures !Valid(d)
  {
  }
}

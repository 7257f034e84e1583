/** The coupon pricing calculator of app/cupones.py: a constant table of
    discount fractions, the application of a coupon to a price, and the
    final price with tax. */
module Cupones {
  import opened Texto
  import opened Dinero

  /** A coupon argument that may be absent (Python's `None`). */
  datatype Option<T> = None | Some(value: T)

  /** The discount table `DESCUENTOS`: canonical coupon code to discount
      fraction. */
  const Descuentos: map<string, real> := map["OFERTA10" := 0.10, "SUPER20" := 0.20]

  /** The default tax rate of `calcular_precio_final`. */
  const ImpuestoPorDefecto: real := 0.19

  predicate EsFraccion(d: real) {
    0.0 <= d < 1.0
  }

  /** Every discount in the table is a fraction in [0, 1). */
  lemma DescuentosSonFracciones()
    ensures forall c :: c in Descuentos ==> EsFraccion(Descuentos[c])
  {
  }

  /** The discount stored under any one key is a fraction in [0, 1). */
  lemma DescuentoEsFraccion(c: string)
    requires c in Descuentos
    ensures EsFraccion(Descuentos[c])
  {
    DescuentosSonFracciones();
  }

  /** Every key of the table is in canonical form, so each entry is reached
      by the normalised code. */
  lemma DescuentosCanonicos(c: string)
    requires c in Descuentos
    ensures Normalize(c) == c
  {
    assert c == "OFERTA10" || c == "SUPER20";
    LiteralCanonico(c);
  }

  /** A code of capitals and digits normalises to itself. */
  lemma LiteralCanonico(s: string)
    requires forall i :: 0 <= i < |s| ==> 'A' <= s[i] <= 'Z' || '0' <= s[i] <= '9'
    ensures Normalize(s) == s
  {
    NormalizeFixesNormal(s);
  }

  /** Python's truth test `not cupon` on an optional string: `None` and the
      empty string are falsy. */
  predicate EsFalso(cupon: Option<string>) {
    cupon == None || cupon == Some("")
  }

  /** The first half of `aplicar_cupon`: the discount a coupon earns, or
      `None` when the coupon is falsy or its normalised code is not a key
      of the table. Whatever it finds is a fraction in [0, 1). */
  function Descuento(cupon: Option<string>): (r: Option<real>)
    ensures r.Some? ==> EsFraccion(r.value)
  {
    if EsFalso(cupon) then None
    else
      var codigo := Normalize(cupon.value);
      if codigo in Descuentos then DescuentoEsFraccion(codigo); Some(Descuentos[codigo])
      else None
  }

  /** The second half of `aplicar_cupon`: no discount leaves the price as
      it is, unrounded; a discount `d` gives the price times `1 - d` rounded
      to hundredths. */
  function Descontar(precio: real, descuento: Option<real>): (r: real)
    ensures r == precio || IsCents(r)
  {
    match descuento
    case None => precio
    case Some(d) => Round2(Discounted(precio, d))
  }

  /** `aplicar_cupon`: a falsy coupon or a code whose normalised form is not
      in the table leaves the price as it is; a code in the table takes off
      its fraction and rounds to hundredths. */
  function AplicarCupon(precio: real, cupon: Option<string>): (r: real)
    ensures r == precio || IsCents(r)
  {
    Descontar(precio, Descuento(cupon))
  }

  /** `calcular_precio_final`: the discounted price times `1 + impuesto`,
      rounded to hundredths. */
  function CalcularPrecioFinal(precioBase: real, cupon: Option<string>, impuesto: real := ImpuestoPorDefecto): (r: real)
    ensures IsCents(r)
  {
    var precioDesc := AplicarCupon(precioBase, cupon);
    Round2(Taxed(precioDesc, impuesto))
  }

  /** A missing or empty coupon returns the price exactly, unrounded. */
  lemma SinCuponPrecioIntacto(precio: real, cupon: Option<string>)
    requires EsFalso(cupon)
    ensures AplicarCupon(precio, cupon) == precio
  {
  }

  /** The pass-through paths really do skip rounding: 0.004 with no coupon
      comes back as 0.004, which is not a whole number of hundredths and is
      more than `round(0.004, 2)`. */
  lemma SinCuponSinRedondeo()
    ensures AplicarCupon(0.004, None) == 0.004
    ensures !IsCents(AplicarCupon(0.004, None))
    ensures AplicarCupon(0.004, None) > Round2(0.004)
  {
    assert (0.004 * 100.0).Floor == 0;
    assert Round2(0.004) == 0.0 by { Round2Nearest(0.004, 0.0); }
  }

  /** The empty key is not in the table, so the empty code, although it
      takes the falsy branch, is priced as any code that normalises to the
      empty key: unchanged. */
  lemma ClaveVaciaFueraDeTabla()
    ensures "" !in Descuentos
  {
  }

  /** The lookup finds a discount exactly when the normalised code is a key
      of the table, and then it finds that key's fraction. */
  lemma DescuentoDeCodigo(codigo: string)
    ensures Descuento(Some(codigo)).Some? <==> Normalize(codigo) in Descuentos
    ensures Normalize(codigo) in Descuentos ==> Descuento(Some(codigo)).value == Descuentos[Normalize(codigo)]
  {
    ClaveVaciaFueraDeTabla();
  }

  /** A code whose normalised form is not in the table returns the price
      exactly; there is no error case. */
  lemma CuponDesconocidoPrecioIntacto(precio: real, codigo: string)
    requires Normalize(codigo) !in Descuentos
    ensures AplicarCupon(precio, Some(codigo)) == precio
  {
    DescuentoDeCodigo(codigo);
  }

  /** A code whose normalised form is in the table with fraction `d` gives
      the price times `1 - d`, rounded to hundredths. */
  lemma CuponConocidoAplicaDescuento(precio: real, codigo: string)
    requires Normalize(codigo) in Descuentos
    ensures AplicarCupon(precio, Some(codigo)) == Round2(Discounted(precio, Descuentos[Normalize(codigo)]))
  {
    DescuentoDeCodigo(codigo);
  }

  /** The discount found depends on the coupon only through its normalised
      key. */
  lemma DescuentoSoloPorClave(a: string, b: string)
    requires Normalize(a) == Normalize(b)
    ensures Descuento(Some(a)) == Descuento(Some(b))
  {
    DescuentoDeCodigo(a);
    DescuentoDeCodigo(b);
  }

  /** The price depends on the coupon only through its normalised key. */
  lemma AplicarCuponSoloPorClave(precio: real, a: string, b: string)
    requires Normalize(a) == Normalize(b)
    ensures AplicarCupon(precio, Some(a)) == AplicarCupon(precio, Some(b))
  {
    DescuentoSoloPorClave(a, b);
  }

  /** The lookup ignores letter case: codes that agree once upper-cased get
      the same price. */
  lemma AplicarCuponIgnoraMayusculas(precio: real, s: string, t: string)
    requires Upper(s) == Upper(t)
    ensures AplicarCupon(precio, Some(s)) == AplicarCupon(precio, Some(t))
  {
    NormalizeIgnoresCase(s, t);
    AplicarCuponSoloPorClave(precio, s, t);
  }

  /** The lookup ignores whitespace around the code. */
  lemma AplicarCuponIgnoraEspacios(precio: real, w1: string, s: string, w2: string)
    requires AllSpace(w1) && AllSpace(w2)
    ensures AplicarCupon(precio, Some(w1 + s + w2)) == AplicarCupon(precio, Some(s))
  {
    NormalizeIgnoresPadding(w1, s, w2);
    AplicarCuponSoloPorClave(precio, w1 + s + w2, s);
  }

  /** Passing the normalised code instead of the code as typed gives the
      same price. */
  lemma AplicarCuponCodigoNormalizado(precio: real, s: string)
    ensures AplicarCupon(precio, Some(Normalize(s))) == AplicarCupon(precio, Some(s))
  {
    NormalizeIdempotent(s);
    AplicarCuponSoloPorClave(precio, Normalize(s), s);
  }

  /** For a non-negative price and a discount in [0, 1), if any, the
      discounted price lies between 0 and the price rounded to hundredths,
      unless it is the price itself. */
  lemma DescontarAcotado(precio: real, descuento: Option<real>)
    requires precio >= 0.0
    requires descuento.Some? ==> EsFraccion(descuento.value)
    ensures 0.0 <= Descontar(precio, descuento)
    ensures Descontar(precio, descuento) == precio || Descontar(precio, descuento) <= Round2(precio)
  {
    if descuento.Some? {
      Round2DiscountBounds(precio, descuento.value);
    }
  }

  /** For a non-negative price the discounted price lies between 0 and the
      price rounded to hundredths; for a price already in hundredths it is
      at most the price itself. */
  lemma AplicarCuponAcotado(precio: real, cupon: Option<string>)
    requires precio >= 0.0
    ensures 0.0 <= AplicarCupon(precio, cupon)
    ensures AplicarCupon(precio, cupon) == precio || AplicarCupon(precio, cupon) <= Round2(precio)
    ensures IsCents(precio) ==> AplicarCupon(precio, cupon) <= precio
  {
    DescontarAcotado(precio, Descuento(cupon));
  }

  /** The final price depends on the coupon only through its normalised
      key. */
  lemma PrecioFinalSoloPorClave(precioBase: real, a: string, b: string, impuesto: real)
    requires Normalize(a) == Normalize(b)
    ensures CalcularPrecioFinal(precioBase, Some(a), impuesto) == CalcularPrecioFinal(precioBase, Some(b), impuesto)
  {
    AplicarCuponSoloPorClave(precioBase, a, b);
  }

  /** Without a coupon the final price is the base price taxed and rounded. */
  lemma PrecioFinalSinCupon(precioBase: real, cupon: Option<string>, impuesto: real)
    requires EsFalso(cupon)
    ensures CalcularPrecioFinal(precioBase, cupon, impuesto) == Round2(Taxed(precioBase, impuesto))
  {
    SinCuponPrecioIntacto(precioBase, cupon);
  }

  /** With a code whose normalised form is a key with fraction `d`, the
      final price rounds twice: once after the discount, once after the
      tax. */
  lemma PrecioFinalCuponConocido(precioBase: real, codigo: string, impuesto: real)
    requires Normalize(codigo) in Descuentos
    ensures CalcularPrecioFinal(precioBase, Some(codigo), impuesto)
         == Round2(Taxed(Round2(Discounted(precioBase, Descuentos[Normalize(codigo)])), impuesto))
  {
    CuponConocidoAplicaDescuento(precioBase, codigo);
  }

  /** The default rate of `calcular_precio_final` is 0.19. */
  lemma PrecioFinalImpuestoPorDefecto(precioBase: real, cupon: Option<string>)
    ensures CalcularPrecioFinal(precioBase, cupon) == CalcularPrecioFinal(precioBase, cupon, 0.19)
  {
  }

  /** With a non-negative base price and tax rate the final price is not
      below the discounted price rounded, and so it is non-negative. */
  lemma PrecioFinalAcotado(precioBase: real, cupon: Option<string>, impuesto: real)
    requires precioBase >= 0.0 && impuesto >= 0.0
    ensures 0.0 <= Round2(AplicarCupon(precioBase, cupon)) <= CalcularPrecioFinal(precioBase, cupon, impuesto)
  {
    AplicarCuponAcotado(precioBase, cupon);
    Round2TaxBounds(AplicarCupon(precioBase, cupon), impuesto);
  }

  /** Every entry of the table is reached by its own code: the code as
      stored gets its discount. */
  lemma AplicarCuponCodigoDeTabla(precio: real, codigo: string)
    requires codigo in Descuentos
    ensures AplicarCupon(precio, Some(codigo)) == Round2(Discounted(precio, Descuentos[codigo]))
  {
    DescuentosCanonicos(codigo);
    CuponConocidoAplicaDescuento(precio, codigo);
  }

  /** Worked examples of `aplicar_cupon`: 100 with OFERTA10 is 90, with
      SUPER20 is 80, and with no coupon stays 100. */
  lemma AplicarCuponEjemplosValidos()
    ensures AplicarCupon(100.0, Some("OFERTA10")) == 90.0
    ensures AplicarCupon(100.0, Some("SUPER20")) == 80.0
    ensures AplicarCupon(100.0, None) == 100.0
  {
    AplicarCuponCodigoDeTabla(100.0, "OFERTA10");
    AplicarCuponCodigoDeTabla(100.0, "SUPER20");
  }

  /** An unknown code leaves 100 at 100. */
  lemma AplicarCuponEjemploInvalido()
    ensures AplicarCupon(100.0, Some("INVALIDO")) == 100.0
  {
    LiteralCanonico("INVALIDO");
    CuponDesconocidoPrecioIntacto(100.0, "INVALIDO");
  }

  /** Upper-casing the lower-case spelling of OFERTA10 gives the table
      key. */
  lemma UpperOferta10()
    ensures Upper("oferta10") == "OFERTA10"
  {
    forall i | 0 <= i < |"OFERTA10"| ensures Upper("oferta10")[i] == "OFERTA10"[i] {
    }
  }

  /** A lower-case code with a space on each side is priced like the
      canonical code. */
  lemma AplicarCuponEjemploMinusculas()
    ensures AplicarCupon(100.0, Some(" oferta10 ")) == 90.0
  {
    assert " " + "oferta10" + " " == " oferta10 ";
    AplicarCuponIgnoraEspacios(100.0, " ", "oferta10", " ");
    UpperOferta10();
    UpperIdempotent("oferta10");
    AplicarCuponIgnoraMayusculas(100.0, "oferta10", "OFERTA10");
    AplicarCuponEjemplosValidos();
  }

  /** Worked examples of `calcular_precio_final`: 100 with OFERTA10 at the
      default rate is 107.1, and 100 with no coupon at 0.19 is 119. */
  lemma PrecioFinalEjemplos()
    ensures CalcularPrecioFinal(100.0, Some("OFERTA10")) == 107.1
    ensures CalcularPrecioFinal(100.0, None, 0.19) == 119.0
  {
    AplicarCuponEjemplosValidos();
  }
}

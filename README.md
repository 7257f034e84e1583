# Coupon pricing calculator, modelled in Dafny

The system is a small shop back end whose pricing core lives in
`app/cupones.py`. It holds three things:

- a constant discount table `DESCUENTOS` mapping coupon codes to fractions;
- `aplicar_cupon(precio, cupon)`. A falsy coupon (`None` or `""`) leaves the
  price as it is. Otherwise the code is normalised with `strip().upper()`
  and looked up in the table. A hit returns `round(precio * (1 - d), 2)`.
  A miss returns the price unchanged and raises no error;
- `calcular_precio_final(precio_base, cupon, impuesto=0.19)`: the discounted
  price times `1 + impuesto`, rounded to two decimals.

The model has three modules:

- `Texto` (`texto.dfy`): the normalisation of a code. `Strip` is Python's
  `str.strip()` on ASCII whitespace. `Upper` is `str.upper()` on ASCII
  letters. `Normalize` is the two composed. `Strip` is defined through the
  indices `StartOf` and `EndOf`, and `StripUnique` states that it returns
  the one slice with only whitespace around it and none at its ends.
- `Dinero` (`dinero.dfy`): money as exact `real` values. `Round2` is
  `round(x, 2)` as round-half-to-even on the exact value: it gives the
  nearest multiple of 0.01 (`Round2Nearest`) and is monotone. The two
  products of the source, `p * (1 - d)` and `p * (1 + t)`, are the named
  functions `Discounted` and `Taxed`.
- `Cupones` (`cupones.dfy`): the table `Descuentos`, `AplicarCupon` and
  `CalcularPrecioFinal`. `AplicarCupon` is written as the composition of
  `Descuento` and `Descontar`:
  - `Descuento` is the lookup: the falsy test, the normalisation and the
    table membership, giving `None` or the fraction found;
  - `Descontar` is the arithmetic: the price unrounded, or `Round2` of the
    discounted price.

  The branches and their order are those of lines 8-17.

The coupon is an `Option<string>`. `None` and `Some("")` are the falsy
values of line 8. A code of whitespace only is truthy: it strips to `""`,
which is not a key, so the price comes back unchanged. That is exactly what
the source does.

One might expect every price to come back rounded to two decimals; the
code does not do that. `aplicar_cupon`
returns `precio` untouched on the falsy path (line 9) and on the miss path
(line 17), and only the discount path rounds (line 15). The model follows
the code. `SinCuponSinRedondeo` exhibits the difference: 0.004 with no
coupon comes back as 0.004, not as `round(0.004, 2)`.
`calcular_precio_final` always rounds at line 22, so its result is a whole
number of hundredths (`CalcularPrecioFinal`).

## Model

| member | source | states |
|---|---|---|
| Texto.IsSpace | app/cupones.py:11 | the characters `strip()` removes: the ASCII whitespace codes 9-13, 28-31 and 32 (a predicate without a contract; the Strip rows state what is proved with it) |
| Texto.StartOf | app/cupones.py:11 | the first index at or after `i` holding a non-space, or the length; every character skipped is whitespace |
| Texto.EndOf | app/cupones.py:11 | one past the last non-space before `j`, or 0; every character dropped is whitespace |
| Texto.Strip | app/cupones.py:11 | `strip()` returns no more characters than it was given and has no whitespace at either end |
| Texto.StripUnique | app/cupones.py:11 | Strip returns `s[i..j]` whenever only whitespace lies outside `s[i..j]` and the slice is empty or starts and ends with a non-space, so the result is that unique slice |
| Texto.StripIsSlice | app/cupones.py:11 | the result of Strip is a slice of the input with only whitespace outside it and none at its ends |
| Texto.StripIgnoresPadding | app/cupones.py:11 | whitespace added on either side of a code does not change what Strip returns |
| Texto.StripIdempotent | app/cupones.py:11 | stripping a stripped code changes nothing |
| Texto.UpperChar | app/cupones.py:11 | `upper()` of one character: a lower-case ASCII letter becomes its capital (code minus 32), anything else is unchanged; whitespace stays whitespace and no lower-case letter is left |
| Texto.Upper | app/cupones.py:11 | `upper()` keeps the length of the code |
| Texto.UpperSpec | app/cupones.py:11 | after `upper()` no character is a lower-case letter, and every character that was not one is unchanged |
| Texto.UpperIdempotent | app/cupones.py:11 | upper-casing twice is upper-casing once |
| Texto.UpperSlice | app/cupones.py:11 | upper-casing commutes with slicing and keeps every whitespace character where it was |
| Texto.StripUpperCommute | app/cupones.py:11 | `strip().upper()` equals `upper().strip()` |
| Texto.Normalize | app/cupones.py:11 | the lookup key `cupon.strip().upper()` is never longer than the code typed |
| Texto.NormalizeIsNormal | app/cupones.py:11 | a normalised code has no surrounding whitespace and no lower-case letter |
| Texto.NormalizeFixesNormal | app/cupones.py:11 | a code with no surrounding whitespace and no lower-case letter normalises to itself |
| Texto.NormalizeIdempotent | app/cupones.py:11 | normalising a normalised code leaves it unchanged |
| Texto.NormalizeIgnoresCase | app/cupones.py:11 | codes equal after upper-casing have the same key |
| Texto.NormalizeIgnoresPadding | app/cupones.py:11 | surrounding whitespace does not change the key |
| Dinero.RoundHalfEven | app/cupones.py:15 | the result is within one half of `n`; a tie goes to the even integer; an integer is returned as it is |
| Dinero.RoundHalfEvenMonotone | app/cupones.py:15 | rounding to an integer preserves the order of its arguments |
| Dinero.Round2 | app/cupones.py:15 | `round(x, 2)` is a whole number of hundredths within 0.005 of `x`; an amount already in hundredths is returned unchanged; a non-negative amount stays non-negative; on an exact tie the result is an even number of hundredths |
| Dinero.Round2Nearest | app/cupones.py:15 | no multiple of 0.01 is closer to `x` than `round(x, 2)` |
| Dinero.Round2Monotone | app/cupones.py:15 | `round(x, 2)` preserves the order of amounts |
| Dinero.Round2Idempotent | app/cupones.py:15 | rounding a rounded amount changes nothing |
| Dinero.Discounted | app/cupones.py:15 | taking a fraction in [0, 1] off a non-negative price leaves it between 0 and the price |
| Dinero.Taxed | app/cupones.py:22 | adding a non-negative rate never lowers a non-negative price |
| Dinero.Round2DiscountBounds | app/cupones.py:15 | the discounted price rounded lies between 0 and the price rounded |
| Dinero.Round2TaxBounds | app/cupones.py:22 | the taxed price rounded is at least the untaxed price rounded, which is at least 0 |
| Cupones.Descuentos | app/cupones.py:1-5 | the table `DESCUENTOS`: OFERTA10 at 0.10 and SUPER20 at 0.20, nothing else (a constant; the next three rows state what is proved about it) |
| Cupones.ImpuestoPorDefecto | app/cupones.py:19 | the default tax rate 0.19 of `calcular_precio_final` (a constant; `PrecioFinalImpuestoPorDefecto` states its use) |
| Cupones.DescuentosSonFracciones | app/cupones.py:1-5 | every fraction in the table lies in [0, 1) |
| Cupones.DescuentoEsFraccion | app/cupones.py:1-5 | the fraction under any one key lies in [0, 1) |
| Cupones.DescuentosCanonicos | app/cupones.py:1-5 | every key of the table is its own normalised form, so each entry can be reached |
| Cupones.LiteralCanonico | app/cupones.py:11 | a code of capitals and digits normalises to itself |
| Cupones.EsFalso | app/cupones.py:8 | the truth test `not cupon`: `None` and the empty string, and nothing else (a predicate; `SinCuponPrecioIntacto` and `ClaveVaciaFueraDeTabla` state what follows from it) |
| Cupones.Descuento | app/cupones.py:8-14 | the lookup of lines 8-14 only ever finds a fraction in [0, 1) |
| Cupones.DescuentoDeCodigo | app/cupones.py:11-14 | for a code, the lookup finds a discount if and only if the normalised code is a key, and then it finds that key's fraction |
| Cupones.Descontar | app/cupones.py:13-17 | the result is either the price itself or a whole number of hundredths |
| Cupones.AplicarCupon | app/cupones.py:7-17 | `aplicar_cupon` returns either the price itself or a whole number of hundredths |
| Cupones.CalcularPrecioFinal | app/cupones.py:19-22 | `aplicar_cupon` (line 21) followed by the tax and `round` (line 22); the final price is always a whole number of hundredths |
| Cupones.SinCuponPrecioIntacto | app/cupones.py:8-9 | a missing or empty coupon returns the price exactly, unrounded |
| Cupones.SinCuponSinRedondeo | app/cupones.py:8-9 | 0.004 with no coupon comes back as 0.004: not rounded, and more than `round(0.004, 2)` |
| Cupones.ClaveVaciaFueraDeTabla | app/cupones.py:1-13 | the empty key is not in the table, so an empty code would be priced as a miss even without the falsy test |
| Cupones.CuponDesconocidoPrecioIntacto | app/cupones.py:13-17 | a code whose normalised form is not a key returns the price exactly, with no error case |
| Cupones.CuponConocidoAplicaDescuento | app/cupones.py:13-15 | a code whose normalised form is a key with fraction `d` returns `round(precio * (1 - d), 2)` |
| Cupones.DescuentoSoloPorClave | app/cupones.py:11-13 | two codes with the same normalised key find the same discount |
| Cupones.AplicarCuponSoloPorClave | app/cupones.py:11-17 | two codes with the same normalised key give the same price |
| Cupones.AplicarCuponIgnoraMayusculas | app/cupones.py:11-13 | codes equal after upper-casing give the same price |
| Cupones.AplicarCuponIgnoraEspacios | app/cupones.py:11-13 | whitespace around the code does not change the price |
| Cupones.AplicarCuponCodigoNormalizado | app/cupones.py:11-13 | passing the normalised code gives the same price as the code as typed |
| Cupones.DescontarAcotado | app/cupones.py:13-17 | for a non-negative price and a discount in [0, 1), if any, the result is non-negative, and it is either the price itself or at most the price rounded |
| Cupones.AplicarCuponAcotado | app/cupones.py:13-17 | for a non-negative price the discounted price is non-negative, and it is either the price itself or at most the price rounded; for a price in whole hundredths it is at most the price |
| Cupones.PrecioFinalSoloPorClave | app/cupones.py:11-22 | two codes with the same normalised key give the same final price |
| Cupones.PrecioFinalSinCupon | app/cupones.py:8-9 | with a missing or empty coupon the final price is the base price taxed and rounded once |
| Cupones.PrecioFinalCuponConocido | app/cupones.py:13-22 | with a code of the table the final price is rounded twice: after the discount (line 15) and after the tax (line 22) |
| Cupones.PrecioFinalImpuestoPorDefecto | app/cupones.py:19 | leaving out the rate is the same as passing 0.19 |
| Cupones.PrecioFinalAcotado | app/cupones.py:21-22 | with a non-negative base and rate the final price is at least the discounted price rounded, which is at least 0 |
| Cupones.AplicarCuponCodigoDeTabla | app/cupones.py:13-15 | each key of the table, passed as it is stored, gets its own discount |
| Cupones.AplicarCuponEjemplosValidos | app/cupones.py:7-17 | 100 with OFERTA10 gives 90, with SUPER20 gives 80, and with no coupon stays 100 |
| Cupones.AplicarCuponEjemploInvalido | app/cupones.py:13-17 | 100 with the unknown code INVALIDO stays 100 |
| Cupones.AplicarCuponEjemploMinusculas | app/cupones.py:11-15 | 100 with " oferta10 " gives 90, as with OFERTA10 |
| Cupones.PrecioFinalEjemplos | app/cupones.py:19-22 | 100 with OFERTA10 at the default rate 0.19 gives 107.1; 100 with no coupon at 0.19 gives 119 |

## Left out

- Floating point: prices, fractions and the tax rate are exact `real`
  values. `Round2` is round-half-to-even on the exact value. CPython's
  `round` works on the binary double, so on inputs such as 2.675 (stored
  just below 2.675) it can give a different result; binary representation
  error is not modelled.
- Unicode: `Strip` removes only ASCII whitespace (codes 9-13, 28-31 and
  32), and `Upper` changes only `a`-`z`. Python's `str.strip()` also
  removes non-ASCII whitespace such as U+00A0. Python's `str.upper()` also
  maps non-ASCII letters, and can change the length (`ß` becomes `SS`).
  It maps `ſ` to `S`, so `"ſuper20"` finds SUPER20 in Python but not in
  the model.
- Duck typing: a non-numeric price or a non-string coupon fails at run
  time in Python. Other falsy values such as `0` or `False` are accepted
  by line 8. The typed signatures (`real`, `Option<string>`) rule all of
  these out.
- The Python types of the results: on the pass-through paths the price
  comes back as whatever type it was given, while `round` returns a float.
  The model has a single `real` type.
- The commented-out `BIENVENIDA` entry of line 4 is not part of the table.
- app/__init__.py, the Flask application factory: it loads `.env` through
  `load_dotenv`, reads `SECRET_KEY` from the environment and registers the
  routes blueprint. This is framework plumbing and I/O around the
  calculator, and is not part of this model. The routes module is not
  part of this model either.
- Cupones.AplicarCuponAcotado: the upper bound "at most the price rounded"
  is stated only for results that differ from the price. On the two
  pass-through paths the price is returned unrounded and can exceed its
  rounding, as `SinCuponSinRedondeo` shows for 0.004.

"""Writes Prime25519.dfy: a Pocklington certificate for 2**255 - 19.

Each link proves n prime from one prime factor q of n - 1: the powers of 2
needed by Pocklington.Criterion are listed one base-4 exponent digit at a time.
"""

P = 2**255 - 19
LINKS = [  # (name of q, q, name of n, n)
    ("991", 991, "8574133", 8574133),
    ("8574133", 8574133, "Q3", 1919519569386763),
    ("Q3", 1919519569386763, "Q2", 75445702479781427272750846543864801),
    ("Q2", 75445702479781427272750846543864801, "Q1",
     74058212732561358302231226437062788676166966415465897661863160754340907),
    ("Q1", 74058212732561358302231226437062788676166966415465897661863160754340907, "P", P),
]


CHUNK = 16


def chain(kind, name, n, e):
    """Lemmas reaching 2**e mod n, CHUNK base-4 digits apiece; returns the last call."""
    digits = []
    while e:
        digits.insert(0, e % 4)
        e //= 4
    x, e, last = 1, 0, "Start(0x%x)" % n
    for part in range(0, len(digits), CHUNK):
        here = "%s%s_%d" % (kind, name, part // CHUNK)
        print("  lemma %s_Residues()" % here)
        for w in digits[part:part + CHUNK]:
            y, e = pow(x, 4, n) * 2**w % n, 4 * e + w
            print("    ensures Quad%s(0x%x, %d, 0x%x)" % (name, x, 2**w, y))
            x = y
        print("  {}\n\n  lemma %s()\n    ensures At(0x%x, 0x%x, 0x%x)" % (here, n, e, x))
        print("  {\n    %s;\n    %s_Residues();\n    Digits%s();\n  }\n" % (last, here, name))
        last = here + "()"
    return last, x


print("""/** A Pocklington certificate that 2^255 - 19 is prime; written by certificate.py. Each link
    proves one number prime from a prime factor of its predecessor, listing the powers of 2
    that Pocklington.Criterion asks for, one base-4 digit of the exponent per line. */
module Prime25519 {
  import opened ModArith
  import opened Primes
  import opened Pocklington

  const P: nat := 0x%x

  lemma IsPrime991()
    ensures IsPrime(991)
  {
    %s
    TrialDivision(991, 31);
  }
""" % (P, "\n    ".join("assert NoFactorTo(991, %d);" % k for k in range(3, 33, 2))))

for qn, q, name, n in LINKS:
    R = (n - 1) // q
    assert (n - 1) % q == 0 and R // q + 1 < q and R % q > R // q + 1
    print("""  ghost predicate Quad%s(x: int, t: int, y: int) {
    (t == 1 || t == 2 || t == 4 || t == 8) && (x * x) * (x * x) * t %% 0x%x == y
  }

  lemma Digits%s()
    ensures forall e: nat, x, t, y {:trigger At(0x%x, e, x), Quad%s(x, t, y)} ::
              At(0x%x, e, x) && Quad%s(x, t, y) ==> At(0x%x, 4 * e + DigitOf(t), y)
  {
    forall e: nat, x, t, y | At(0x%x, e, x) && Quad%s(x, t, y)
      ensures At(0x%x, 4 * e + DigitOf(t), y)
    {
      OneDigit(0x%x, e, x, t, y);
    }
  }
""" % (name, n, name, n, name, n, name, n, n, name, n, n))
    power, one = chain("Power", name, n, n - 1)
    root, x = chain("Root", name, n, R)
    assert one == 1
    c = pow(x - 1, -1, n)
    print("  lemma IsPrime%s()" % name)
    print("    ensures IsPrime(%s)\n  {" % ("P" if name == "P" else "0x%x" % n))
    print("    IsPrime%s();\n    %s;\n    %s;" % (qn, power, root))
    print("    CongIntro(0x%x * (0x%x - 1), 1, 0x%x, 0x%x);" % (c, x, n, (c * (x - 1) - 1) // n))
    print("    Criterion(0x%x, 0x%x, 0x%x, 0x%x, 0x%x);\n  }%s" % (n, q, R, x, c, "\n" if n != P else ""))
print("}")

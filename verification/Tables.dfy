/** The two tables of twiddle factors, as decision trees on the index so that looking an entry up
    costs the verifier eight comparisons.  Four consecutive entries stand on each line. */
module Tables {
  import opened Words

  /** `ZETAS_Q1`: powers of 62 modulo 7681, bit-reversed, times 2^16, centred. */
  function ZetasQ1(k: nat): (z: i16)
    requires k < 256
  {
    if k < 128 then
     if k < 64 then
      if k < 32 then
       if k < 16 then
        if k < 8 then
         if k < 4 then
          if k < 2 then if k < 1 then -3593 else 3777 else if k < 3 then -3182 else 3625
         else
          if k < 6 then if k < 5 then -3696 else -1100 else if k < 7 then 2456 else 2194
        else
         if k < 12 then
          if k < 10 then if k < 9 then 121 else -2250 else if k < 11 then 834 else -2495
         else
          if k < 14 then if k < 13 then -2319 else 2876 else if k < 15 then -1701 else 1414
       else
        if k < 24 then
         if k < 20 then
          if k < 18 then if k < 17 then 2816 else -2088 else if k < 19 then -2237 else 1986
         else
          if k < 22 then if k < 21 then -1599 else 1993 else if k < 23 then 3706 else -2006
        else
         if k < 28 then
          if k < 26 then if k < 25 then -1525 else -2557 else if k < 27 then 1296 else 1483
         else
          if k < 30 then if k < 29 then -2830 else 3364 else if k < 31 then 617 else 1921
      else
       if k < 48 then
        if k < 40 then
         if k < 36 then
          if k < 34 then if k < 33 then -3689 else -1738 else if k < 35 then 3266 else -3600
         else
          if k < 38 then if k < 37 then 810 else 1887 else if k < 39 then -638 else -7
        else
         if k < 44 then
          if k < 42 then if k < 41 then -438 else -679 else if k < 43 then -1305 else -1760
         else
          if k < 46 then if k < 45 then 396 else -3174 else if k < 47 then -3555 else -1881
       else
        if k < 56 then
         if k < 52 then
          if k < 50 then if k < 49 then 3772 else -2535 else if k < 51 then -2440 else -2555
         else
          if k < 54 then if k < 53 then 1535 else -549 else if k < 55 then 3153 else 2310
        else
         if k < 60 then
          if k < 58 then if k < 57 then -1399 else 1321 else if k < 59 then 514 else -2956
         else
          if k < 62 then if k < 61 then -103 else 2804 else if k < 63 then -2043 else -1431
     else
      if k < 96 then
       if k < 80 then
        if k < 72 then
         if k < 68 then
          if k < 66 then if k < 65 then -1054 else 1698 else if k < 67 then -3456 else 1166
         else
          if k < 70 then if k < 69 then 2426 else 3831 else if k < 71 then 915 else -2
        else
         if k < 76 then
          if k < 74 then if k < 73 then -3417 else -194 else if k < 75 then 2919 else 2789
         else
          if k < 78 then if k < 77 then 3405 else 2385 else if k < 79 then -2113 else -2732
       else
        if k < 88 then
         if k < 84 then
          if k < 82 then if k < 81 then 2175 else 373 else if k < 83 then 3692 else -730
         else
          if k < 86 then if k < 85 then -1756 else 3135 else if k < 87 then -2391 else 660
        else
         if k < 92 then
          if k < 90 then if k < 89 then -1497 else 2572 else if k < 91 then -3145 else 1350
         else
          if k < 94 then if k < 93 then -2224 else -3588 else if k < 95 then -1681 else 2883
      else
       if k < 112 then
        if k < 104 then
         if k < 100 then
          if k < 98 then if k < 97 then -1390 else 1598 else if k < 99 then 3750 else 2762
         else
          if k < 102 then if k < 101 then 2835 else 2764 else if k < 103 then -2233 else 3816
        else
         if k < 108 then
          if k < 106 then if k < 105 then -1533 else 1464 else if k < 107 then -727 else 1521
         else
          if k < 110 then if k < 109 then 1386 else -3428 else if k < 111 then -921 else -2743
       else
        if k < 120 then
         if k < 116 then
          if k < 114 then if k < 113 then -2160 else 2649 else if k < 115 then -859 else 2579
         else
          if k < 118 then if k < 117 then 1532 else 1919 else if k < 119 then -486 else 404
        else
         if k < 124 then
          if k < 122 then if k < 121 then -1056 else 783 else if k < 123 then 1799 else -2665
         else
          if k < 126 then if k < 125 then 3480 else 2133 else if k < 127 then -3310 else -1168
    else
     if k < 192 then
      if k < 160 then
       if k < 144 then
        if k < 136 then
         if k < 132 then
          if k < 130 then if k < 129 then -17 else 3744 else if k < 131 then 2422 else 2001
         else
          if k < 134 then if k < 133 then 1278 else 929 else if k < 135 then -1348 else -2230
        else
         if k < 140 then
          if k < 138 then if k < 137 then -179 else -1242 else if k < 139 then -2059 else -1070
         else
          if k < 142 then if k < 141 then 2161 else 1649 else if k < 143 then 2072 else 3177
       else
        if k < 152 then
         if k < 148 then
          if k < 146 then if k < 145 then -2071 else 1121 else if k < 147 then -436 else 236
         else
          if k < 150 then if k < 149 then 715 else 670 else if k < 151 then -658 else -1476
        else
         if k < 156 then
          if k < 154 then if k < 153 then -2378 else 2767 else if k < 155 then 3542 else -226
         else
          if k < 158 then if k < 157 then 1203 else 1181 else if k < 159 then -151 else -3794
      else
       if k < 176 then
        if k < 168 then
         if k < 164 then
          if k < 162 then if k < 161 then 1712 else -222 else if k < 163 then 2786 else -451
         else
          if k < 166 then if k < 165 then -3547 else 1779 else if k < 167 then -1151 else -434
        else
         if k < 172 then
          if k < 170 then if k < 169 then 3568 else -3693 else if k < 171 then 3581 else -1586
         else
          if k < 174 then if k < 173 then 1509 else 2918 else if k < 175 then 2339 else -1407
       else
        if k < 184 then
         if k < 180 then
          if k < 178 then if k < 177 then 3434 else -3550 else if k < 179 then 2340 else 2891
         else
          if k < 182 then if k < 181 then 2998 else -3314 else if k < 183 then 3461 else -2719
        else
         if k < 188 then
          if k < 186 then if k < 185 then -2247 else -2589 else if k < 187 then 1144 else 1072
         else
          if k < 190 then if k < 189 then 1295 else -2815 else if k < 191 then -3770 else 3450
     else
      if k < 224 then
       if k < 208 then
        if k < 200 then
         if k < 196 then
          if k < 194 then if k < 193 then 3781 else -2258 else if k < 195 then 796 else 3163
         else
          if k < 198 then if k < 197 then -3208 else -589 else if k < 199 then 2963 else -124
        else
         if k < 204 then
          if k < 202 then if k < 201 then 3214 else 3334 else if k < 203 then -3366 else -3745
         else
          if k < 206 then if k < 205 then 3723 else 1931 else if k < 207 then -429 else -402
       else
        if k < 216 then
         if k < 212 then
          if k < 210 then if k < 209 then -3408 else 83 else if k < 211 then -1526 else 826
         else
          if k < 214 then if k < 213 then -1338 else 2345 else if k < 215 then -2303 else 2515
        else
         if k < 220 then
          if k < 218 then if k < 217 then -642 else -1837 else if k < 219 then -2965 else -791
         else
          if k < 222 then if k < 221 then 370 else 293 else if k < 223 then 3312 else 2083
      else
       if k < 240 then
        if k < 232 then
         if k < 228 then
          if k < 226 then if k < 225 then -1689 else -777 else if k < 227 then 2070 else 2262
         else
          if k < 230 then if k < 229 then -893 else 2386 else if k < 231 then -188 else -1519
        else
         if k < 236 then
          if k < 234 then if k < 233 then -2874 else -1404 else if k < 235 then 1012 else 2130
         else
          if k < 238 then if k < 237 then 1441 else 2532 else if k < 239 then -3335 else -1084
       else
        if k < 248 then
         if k < 244 then
          if k < 242 then if k < 241 then -3343 else 2937 else if k < 243 then 509 else -1403
         else
          if k < 246 then if k < 245 then 2812 else 3763 else if k < 247 then 592 else 2005
        else
         if k < 252 then
          if k < 250 then if k < 249 then 3657 else 2460 else if k < 251 then -3677 else 3752
         else
          if k < 254 then if k < 253 then 692 else 1669 else if k < 255 then 2167 else -3287
  }

  /** `ZETAS_Q2`: powers of 10 modulo 10753, bit-reversed, times 2^16, centred. */
  function ZetasQ2(k: nat): (z: i16)
    requires k < 256
  {
    if k < 128 then
     if k < 64 then
      if k < 32 then
       if k < 16 then
        if k < 8 then
         if k < 4 then
          if k < 2 then if k < 1 then 1018 else 223 else if k < 3 then 4188 else -3688
         else
          if k < 6 then if k < 5 then 2413 else -3686 else if k < 7 then 357 else -376
        else
         if k < 12 then
          if k < 10 then if k < 9 then 2695 else -730 else if k < 11 then 4855 else 2236
         else
          if k < 14 then if k < 13 then -425 else 4544 else if k < 15 then 3364 else -3784
       else
        if k < 24 then
         if k < 20 then
          if k < 18 then if k < 17 then 4875 else -1520 else if k < 19 then -5063 else -4035
         else
          if k < 22 then if k < 21 then 2503 else 918 else if k < 23 then -3012 else 4347
        else
         if k < 28 then
          if k < 26 then if k < 25 then 1931 else -1341 else if k < 27 then -3823 else -341
         else
          if k < 30 then if k < 29 then -4095 else -5175 else if k < 31 then -2629 else -5213
      else
       if k < 48 then
        if k < 40 then
         if k < 36 then
          if k < 34 then if k < 33 then -3091 else 4129 else if k < 35 then -2935 else 2790
         else
          if k < 38 then if k < 37 then 268 else 1284 else if k < 39 then 4 else 3550
        else
         if k < 44 then
          if k < 42 then if k < 41 then 2982 else 1287 else if k < 43 then 205 else 4513
         else
          if k < 46 then if k < 45 then -2565 else -2178 else if k < 47 then 4616 else -193
       else
        if k < 56 then
         if k < 52 then
          if k < 50 then if k < 49 then -4102 else 4742 else if k < 51 then -4876 else -4744
         else
          if k < 54 then if k < 53 then -2984 else -3062 else if k < 55 then -847 else -4379
        else
         if k < 60 then
          if k < 58 then if k < 57 then -2388 else -1009 else if k < 59 then -3085 else -1299
         else
          if k < 62 then if k < 61 then -2576 else 4189 else if k < 63 then 1085 else 544
     else
      if k < 96 then
       if k < 80 then
        if k < 72 then
         if k < 68 then
          if k < 66 then if k < 65 then 5023 else 794 else if k < 67 then -567 else -3198
         else
          if k < 70 then if k < 69 then 4734 else -2998 else if k < 71 then 3441 else -5341
        else
         if k < 76 then
          if k < 74 then if k < 73 then 675 else 2271 else if k < 75 then 1615 else -2213
         else
          if k < 78 then if k < 77 then 512 else 2774 else if k < 79 then 3057 else -2045
       else
        if k < 88 then
         if k < 84 then
          if k < 82 then if k < 81 then 3615 else -1458 else if k < 83 then -909 else 5114
         else
          if k < 86 then if k < 85 then 2981 else -4977 else if k < 87 then -116 else 4580
        else
         if k < 92 then
          if k < 90 then if k < 89 then -454 else -5064 else if k < 91 then 4808 else -1841
         else
          if k < 94 then if k < 93 then -886 else -1356 else if k < 95 then -4828 else -5156
      else
       if k < 112 then
        if k < 104 then
         if k < 100 then
          if k < 98 then if k < 97 then 2737 else 4286 else if k < 99 then -3169 else -578
         else
          if k < 102 then if k < 101 then 5294 else -636 else if k < 103 then 400 else 151
        else
         if k < 108 then
          if k < 106 then if k < 105 then -2884 else -336 else if k < 107 then -1006 else -326
         else
          if k < 110 then if k < 109 then 1572 else -2740 else if k < 111 then -779 else 2206
       else
        if k < 120 then
         if k < 116 then
          if k < 114 then if k < 113 then -1586 else 1068 else if k < 115 then -3715 else -1268
         else
          if k < 118 then if k < 117 then 2684 else -5116 else if k < 119 then 1324 else 2973
        else
         if k < 124 then
          if k < 122 then if k < 121 then -2234 else -4123 else if k < 123 then 3337 else -864
         else
          if k < 126 then if k < 125 then 472 else -467 else if k < 127 then 970 else 635
    else
     if k < 192 then
      if k < 160 then
       if k < 144 then
        if k < 136 then
         if k < 132 then
          if k < 130 then if k < 129 then -573 else 2230 else if k < 131 then -1132 else -4621
         else
          if k < 134 then if k < 133 then 2624 else -4601 else if k < 135 then 3570 else -3760
        else
         if k < 140 then
          if k < 138 then if k < 137 then -5309 else 3453 else if k < 139 then -5215 else 854
         else
          if k < 142 then if k < 141 then -4250 else 2428 else if k < 143 then 1381 else 5172
       else
        if k < 152 then
         if k < 148 then
          if k < 146 then if k < 145 then -5015 else -4447 else if k < 147 then 3135 else 2662
         else
          if k < 150 then if k < 149 then 3524 else -1573 else if k < 151 then 2139 else 458
        else
         if k < 156 then
          if k < 154 then if k < 153 then -2196 else -2657 else if k < 155 then 4782 else -3410
         else
          if k < 158 then if k < 157 then 2062 else 2015 else if k < 159 then -4784 else 1635
      else
       if k < 176 then
        if k < 168 then
         if k < 164 then
          if k < 162 then if k < 161 then 1349 else -1722 else if k < 163 then 2909 else -4359
         else
          if k < 166 then if k < 165 then 2680 else 2087 else if k < 167 then 40 else 3241
        else
         if k < 172 then
          if k < 170 then if k < 169 then -2439 else 2117 else if k < 171 then 2050 else 2118
         else
          if k < 174 then if k < 173 then -4144 else -274 else if k < 175 then 3148 else -1930
       else
        if k < 184 then
         if k < 180 then
          if k < 178 then if k < 177 then 1992 else 4408 else if k < 179 then 5005 else -4428
         else
          if k < 182 then if k < 181 then 2419 else 1639 else if k < 183 then 2283 else -778
        else
         if k < 188 then
          if k < 186 then if k < 185 then -2374 else 663 else if k < 187 then 1409 else -2237
         else
          if k < 190 then if k < 189 then -4254 else -1122 else if k < 191 then 97 else -5313
     else
      if k < 224 then
       if k < 208 then
        if k < 200 then
         if k < 196 then
          if k < 194 then if k < 193 then -3535 else -2813 else if k < 195 then 5083 else 279
         else
          if k < 198 then if k < 197 then 4328 else 2279 else if k < 199 then 2151 else 355
        else
         if k < 204 then
          if k < 202 then if k < 201 then -4003 else 1204 else if k < 203 then -5356 else -624
         else
          if k < 206 then if k < 205 then 5120 else -4519 else if k < 207 then -1689 else 1056
       else
        if k < 216 then
         if k < 212 then
          if k < 210 then if k < 209 then 3891 else -3827 else if k < 211 then 1663 else -2625
         else
          if k < 214 then if k < 213 then -2449 else 3995 else if k < 215 then -1160 else 2788
        else
         if k < 220 then
          if k < 218 then if k < 217 then -4540 else 3125 else if k < 219 then 5068 else 3096
         else
          if k < 222 then if k < 221 then 1893 else -2807 else if k < 223 then -5268 else 2205
      else
       if k < 240 then
        if k < 232 then
         if k < 228 then
          if k < 226 then if k < 225 then -4889 else -152 else if k < 227 then 569 else 4973
         else
          if k < 230 then if k < 229 then -825 else 4393 else if k < 231 then 4000 else 1510
        else
         if k < 236 then
          if k < 234 then if k < 233 then 3419 else -3360 else if k < 235 then 693 else -3260
         else
          if k < 238 then if k < 237 then 4967 else 4859 else if k < 239 then 2963 else 554
       else
        if k < 248 then
         if k < 244 then
          if k < 242 then if k < 241 then -5107 else -73 else if k < 243 then -4891 else -1927
         else
          if k < 246 then if k < 245 then 5334 else 2605 else if k < 247 then 2487 else -2529
        else
         if k < 252 then
          if k < 250 then if k < 249 then -834 else 1782 else if k < 251 then 1111 else 2113
         else
          if k < 254 then if k < 253 then 4720 else -4670 else if k < 255 then -1053 else -4403
  }

  /** Table entry `k` of the prime that `second` selects. */
  function Zeta(second: bool, k: nat): (z: i16)
    requires k < 256
  {
    if second then ZetasQ2(k) else ZetasQ1(k)
  }
}

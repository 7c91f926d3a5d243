/**
 The powers that certify the modulus of the key exchange, computed square by square: each line takes a power
 from exponent k to 2 * k or 2 * k + 1 and names quotient and remainder of the product.
 */
module Certificate {
  import opened Arithmetic
  import opened KeyExchange
  import opened NumberTheory

  /** The largest prime factor of P - 1 = 4 * 11 * 137 * 547 * LARGE. */
  const LARGE := 5594472617641

  lemma First(a: nat, n: nat) returns (k: nat)
    requires a < n
    ensures k == 1 && Power(a, k) % n == a
  {
    k := 1;
    assert Power(a, 1) == a * Power(a, 0) == a;
    SmallMod(a, n);
  }

  lemma Twice(a: nat, n: nat, k: nat, r: nat, q: nat, s: nat) returns (j: nat)
    requires s < n && Power(a, k) % n == r && r * r == q * n + s
    ensures j == 2 * k && Power(a, j) % n == s
  {
    j := 2 * k;
    PowerAdd(a, k, k);
    ProductMod(Power(a, k), Power(a, k), n);
    ModUnique(r * r, q, s, n);
  }

  lemma TwiceMore(a: nat, n: nat, k: nat, r: nat, q: nat, s: nat) returns (j: nat)
    requires s < n && Power(a, k) % n == r && r * r * a == q * n + s
    ensures j == 2 * k + 1 && Power(a, j) % n == s
  {
    j := 2 * k + 1;
    PowerAdd(a, k, k);
    var p := Power(a, 2 * k);
    ProductMod(Power(a, k), Power(a, k), n);
    SmallMod(p % n, n);
    SameProduct(p, r * r, a, a, n);
    assert Power(a, j) == a * p == p * a;
    ModUnique(r * r * a, q, s, n);
  }

  /** A power of a power. */
  lemma Compose(a: nat, n: nat, k: nat, b: nat, e: nat, s: nat) returns (j: nat)
    requires n > 0 && Power(a, k) % n == b && Power(b, e) % n == s
    ensures j == k * e && Power(a, j) % n == s
  {
    j := k * e;
    PowerPower(a, k, e);
    PowerMod(Power(a, k), e, n);
  }

  /** 2 to the (LARGE - 1) / (1427 * 2131). */
  lemma FactorBase(a: nat, n: nat) returns (k: nat)
    requires a == 2 && n == LARGE
    ensures k == 1839720 && Power(a, k) % n == 3541463116380
  {
    k := First(a, n);
    k := TwiceMore(a, n, k, 2, 0, 8);
    k := TwiceMore(a, n, k, 8, 0, 128);
    k := Twice(a, n, k, 128, 0, 16384);
    k := Twice(a, n, k, 16384, 0, 268435456);
    k := Twice(a, n, k, 268435456, 12880, 786722711856);
    k := Twice(a, n, k, 786722711856, 110632881354, 4380242598822);
    k := Twice(a, n, k, 4380242598822, 3429550296489, 4624954025235);
    k := TwiceMore(a, n, k, 4624954025235, 7646904792451, 4247382359);
    k := Twice(a, n, k, 4247382359, 3224657, 1615760030744);
    k := Twice(a, n, k, 1615760030744, 466653544557, 601007463499);
    k := TwiceMore(a, n, k, 601007463499, 129131017655, 3989599194147);
    k := Twice(a, n, k, 3989599194147, 2845112098636, 169893419933);
    k := Twice(a, n, k, 169893419933, 5159337815, 5353434330074);
    k := TwiceMore(a, n, k, 5353434330074, 10245562391723, 2957919505509);
    k := TwiceMore(a, n, k, 2957919505509, 3127832916182, 4818075131500);
    k := Twice(a, n, k, 4818075131500, 4149425613341, 4306090701419);
    k := TwiceMore(a, n, k, 4306090701419, 6628834707449, 2631345719313);
    k := Twice(a, n, k, 2631345719313, 1237646650144, 1130771601665);
    k := Twice(a, n, k, 1130771601665, 228554951024, 1981597357841);
    k := Twice(a, n, k, 1981597357841, 701894236861, 3541463116380);
  }

  /** Its 1427-th power. */
  lemma FactorToA(a: nat, n: nat) returns (k: nat)
    requires a == 3541463116380 && n == LARGE
    ensures k == 1427 && Power(a, k) % n == 1346892610175
  {
    k := First(a, n);
    k := Twice(a, n, k, 3541463116380, 2241848671335, 1426092283665);
    k := TwiceMore(a, n, k, 1426092283665, 1287415787475525247031981, 3764417568679);
    k := TwiceMore(a, n, k, 3764417568679, 8970551705698868511139698, 1565163459162);
    k := Twice(a, n, k, 1565163459162, 437885180842, 4611237308522);
    k := Twice(a, n, k, 4611237308522, 3800806790698, 1290144321066);
    k := TwiceMore(a, n, k, 1290144321066, 1053659193020791715399727, 82861527273);
    k := Twice(a, n, k, 82861527273, 1227288642, 403314683007);
    k := Twice(a, n, k, 403314683007, 29075615280, 4012637407569);
    k := TwiceMore(a, n, k, 4012637407569, 10192563025634421055896298, 1862679992162);
    k := TwiceMore(a, n, k, 1862679992162, 2196342522468305786004745, 1346892610175);
  }

  /** Its 2131-th power. */
  lemma FactorToB(a: nat, n: nat) returns (k: nat)
    requires a == 3541463116380 && n == LARGE
    ensures k == 2131 && Power(a, k) % n == 2485137133130
  {
    k := First(a, n);
    k := Twice(a, n, k, 3541463116380, 2241848671335, 1426092283665);
    k := Twice(a, n, k, 1426092283665, 363526527078, 4854298849227);
    k := Twice(a, n, k, 4854298849227, 4212053383423, 4475031732386);
    k := Twice(a, n, k, 4475031732386, 3579588349885, 3280589931711);
    k := TwiceMore(a, n, k, 3280589931711, 6812828647320778228880505, 2068318705275);
    k := Twice(a, n, k, 2068318705275, 764673019061, 4813354970524);
    k := TwiceMore(a, n, k, 4813354970524, 14666259064752964598004482, 4575265687918);
    k := Twice(a, n, k, 4575265687918, 3741738953021, 3081176331263);
    k := Twice(a, n, k, 3081176331263, 1696969175324, 4372966884485);
    k := TwiceMore(a, n, k, 4372966884485, 12105310893057073920449641, 5286964168619);
    k := TwiceMore(a, n, k, 5286964168619, 17694418903432637193902050, 2485137133130);
  }

  /** The 1427-th power of that. */
  lemma FactorToAB(a: nat, n: nat) returns (k: nat)
    requires a == 2485137133130 && n == LARGE
    ensures k == 1427 && Power(a, k) % n == 1
  {
    k := First(a, n);
    k := Twice(a, n, k, 2485137133130, 1103930073942, 2671919986078);
    k := TwiceMore(a, n, k, 2671919986078, 3171305663870252527764795, 2352226294325);
    k := TwiceMore(a, n, k, 2352226294325, 2457816225809167687222214, 4707886379076);
    k := Twice(a, n, k, 4707886379076, 3961802241805, 2529979931771);
    k := Twice(a, n, k, 2529979931771, 1144129016733, 2703815209588);
    k := TwiceMore(a, n, k, 2703815209588, 3247470537105585771426647, 3345801138993);
    k := Twice(a, n, k, 3345801138993, 2000972393070, 1157236906179);
    k := Twice(a, n, k, 1157236906179, 239378641840, 771443680601);
    k := TwiceMore(a, n, k, 771443680601, 264362382845819609110167, 3798703833083);
    k := TwiceMore(a, n, k, 3798703833083, 6410059726665528086561809, 1);
  }

  /** G to LARGE. */
  lemma GToLarge(a: nat, n: nat) returns (k: nat)
    requires a == 5 && n == P
    ensures k == 5594472617641 && Power(a, k) % n == 899860011295891391
  {
    k := First(a, n);
    k := Twice(a, n, k, 5, 0, 25);
    k := TwiceMore(a, n, k, 25, 0, 3125);
    k := Twice(a, n, k, 3125, 0, 9765625);
    k := Twice(a, n, k, 9765625, 0, 95367431640625);
    k := Twice(a, n, k, 95367431640625, 493038065, 14077307707469373420);
    k := TwiceMore(a, n, k, 14077307707469373420, 53714246671099793845, 14034480126913715335);
    k := Twice(a, n, k, 14034480126913715335, 10677582539536310288, 7215814086528643809);
    k := TwiceMore(a, n, k, 7215814086528643809, 14113052342270227860, 11691446251162364385);
    k := TwiceMore(a, n, k, 11691446251162364385, 37049875820261981618, 14173525998624861899);
    k := Twice(a, n, k, 14173525998624861899, 10890205796263161842, 9720539064087798207);
    k := TwiceMore(a, n, k, 9720539064087798207, 25611262160655007236, 17682068353612007793);
    k := Twice(a, n, k, 17682068353612007793, 16949090853784135223, 14821127628314538638);
    k := Twice(a, n, k, 14821127628314538638, 11908108189556228808, 8539587609030240988);
    k := TwiceMore(a, n, k, 8539587609030240988, 19766240654966177522, 16904471357702578966);
    k := Twice(a, n, k, 16904471357702578966, 15491143084196412311, 2144141775381610929);
    k := Twice(a, n, k, 2144141775381610929, 249222515071848271, 8643311160576435094);
    k := Twice(a, n, k, 8643311160576435094, 4049865251018359112, 4332159778090051452);
    k := Twice(a, n, k, 4332159778090051452, 1017394086886530324, 4403204050285393836);
    k := TwiceMore(a, n, k, 4403204050285393836, 5255183741634363685, 11668725737966935);
    k := Twice(a, n, k, 11668725737966935, 7381202872649, 6133260749182629732);
    k := Twice(a, n, k, 6133260749182629732, 2039215553007870038, 18259197162293842658);
    k := Twice(a, n, k, 18259197162293842658, 18073557028781108073, 7857486325278085303);
    k := TwiceMore(a, n, k, 7857486325278085303, 16734685293304574203, 11698260808762324974);
    k := TwiceMore(a, n, k, 11698260808762324974, 37093078703483315585, 15976481148061387535);
    k := Twice(a, n, k, 15976481148061387535, 13837019088812661983, 14339726439101018694);
    k := TwiceMore(a, n, k, 14339726439101018694, 55735514496922824353, 13291059045178660559);
    k := TwiceMore(a, n, k, 13291059045178660559, 47881688453137835969, 5066824742296408672);
    k := Twice(a, n, k, 5066824742296408672, 1391720558737301817, 4035940249605524515);
    k := Twice(a, n, k, 4035940249605524515, 883018359950082041, 7213408260796697388);
    k := TwiceMore(a, n, k, 7213408260796697388, 14103643041019974545, 4652322848724996155);
    k := Twice(a, n, k, 4652322848724996155, 1173329439725681487, 10728546801777858766);
    k := TwiceMore(a, n, k, 10728546801777858766, 31198382765547719793, 6652509533292346079);
    k := TwiceMore(a, n, k, 6652509533292346079, 11995581148008495923, 18319852109140569094);
    k := Twice(a, n, k, 18319852109140569094, 18193833012466746730, 14358586319191822226);
    k := TwiceMore(a, n, k, 14358586319191822226, 55882219719065839109, 13424620089635532667);
    k := Twice(a, n, k, 13424620089635532667, 9769768791225197288, 638275799491555473);
    k := TwiceMore(a, n, k, 638275799491555473, 110424906039979268, 1992988627324148369);
    k := Twice(a, n, k, 1992988627324148369, 215322750333178027, 17287758182309322122);
    k := TwiceMore(a, n, k, 17287758182309322122, 81007949634849106483, 17858532691721470389);
    k := Twice(a, n, k, 17858532691721470389, 17289077607783484675, 5071304975171922346);
    k := Twice(a, n, k, 5071304975171922346, 1394182845950423530, 9242448142533207506);
    k := TwiceMore(a, n, k, 9242448142533207506, 23153909255227557777, 899860011295891391);
  }

  /** Its power 137 * 547. */
  lemma LargeToHigh(a: nat, n: nat) returns (k: nat)
    requires a == 899860011295891391 && n == P
    ensures k == 74939 && Power(a, k) % n == 3769233288523906715
  {
    k := First(a, n);
    k := Twice(a, n, k, 899860011295891391, 43896529202868988, 12180382533965500565);
    k := Twice(a, n, k, 12180382533965500565, 8042704884987164029, 18318755352223976072);
    k := TwiceMore(a, n, k, 18318755352223976072, 16369942561219334874529182770009117151, 6181119080878220837);
    k := Twice(a, n, k, 6181119080878220837, 2071164046041526272, 1278841249586975065);
    k := Twice(a, n, k, 1278841249586975065, 88657105834520191, 12245376568059766838);
    k := TwiceMore(a, n, k, 12245376568059766838, 7314750550246200669493114035727056989, 9757388984649355531);
    k := Twice(a, n, k, 9757388984649355531, 5161162285188628611, 13831661541010494634);
    k := Twice(a, n, k, 13831661541010494634, 10371199395438693928, 1783379406683948060);
    k := TwiceMore(a, n, k, 1783379406683948060, 155146765193951619458939743618160623, 6123097178947427589);
    k := Twice(a, n, k, 6123097178947427589, 2032462688972212804, 8641755703584817093);
    k := TwiceMore(a, n, k, 8641755703584817093, 3643000242190143657782210849949239615, 12685333328117452204);
    k := TwiceMore(a, n, k, 12685333328117452204, 7849807328847582574710091490236890352, 6977487312118905792);
    k := TwiceMore(a, n, k, 6977487312118905792, 2374943822091514845088667303230866279, 9825028363487557821);
    k := Twice(a, n, k, 9825028363487557821, 5232965880461908629, 16609737610919582688);
    k := TwiceMore(a, n, k, 16609737610919582688, 13458007744017666599189337401046007535, 6274326388546911509);
    k := TwiceMore(a, n, k, 6274326388546911509, 1920390035559799646091212845613456508, 3769233288523906715);
  }

  /** The 4th power of that. */
  lemma HighTo4(a: nat, n: nat) returns (k: nat)
    requires a == 3769233288523906715 && n == P
    ensures k == 4 && Power(a, k) % n == 14926365385974592157
  {
    k := First(a, n);
    k := Twice(a, n, k, 3769233288523906715, 770169495849668431, 10745439349872294158);
    k := Twice(a, n, k, 10745439349872294158, 6259341288652928251, 14926365385974592157);
  }

  /** Its 22nd power. */
  lemma HighTo22(a: nat, n: nat) returns (k: nat)
    requires a == 3769233288523906715 && n == P
    ensures k == 22 && Power(a, k) % n == 18446744073709551556
  {
    k := First(a, n);
    k := Twice(a, n, k, 3769233288523906715, 770169495849668431, 10745439349872294158);
    k := TwiceMore(a, n, k, 10745439349872294158, 23592917549422744777996754092240438879, 11151823797719808657);
    k := TwiceMore(a, n, k, 11151823797719808657, 25411195248996297911858643377174079567, 16150722209648967216);
    k := Twice(a, n, k, 16150722209648967216, 14140480664281996300, 18446744073709551556);
  }

  /** The square of the last: 1. */
  lemma Square22(a: nat, n: nat) returns (k: nat)
    requires a == 18446744073709551556 && n == P
    ensures k == 2 && Power(a, k) % n == 1
  {
    k := First(a, n);
    k := Twice(a, n, k, 18446744073709551556, 18446744073709551555, 1);
  }

  /** The 44th power of G to LARGE. */
  lemma LargeTo44(a: nat, n: nat) returns (k: nat)
    requires a == 899860011295891391 && n == P
    ensures k == 44 && Power(a, k) % n == 15318189668295695229
  {
    k := First(a, n);
    k := Twice(a, n, k, 899860011295891391, 43896529202868988, 12180382533965500565);
    k := TwiceMore(a, n, k, 12180382533965500565, 7237308508654070294709707829018067223, 2520456364583975764);
    k := TwiceMore(a, n, k, 2520456364583975764, 309894305904170313717064454137272201, 8786895593539794179);
    k := Twice(a, n, k, 8786895593539794179, 4185537234281289926, 15754812408720569259);
    k := Twice(a, n, k, 15754812408720569259, 13455714083860055436, 15318189668295695229);
  }

  /** Its 547th power. */
  lemma LowTo547(a: nat, n: nat) returns (k: nat)
    requires a == 15318189668295695229 && n == P
    ensures k == 547 && Power(a, k) % n == 3346097404549838006
  {
    k := First(a, n);
    k := Twice(a, n, k, 15318189668295695229, 12720235819192704332, 15499045534642117517);
    k := Twice(a, n, k, 15499045534642117517, 13022374654575157893, 17008294416139255888);
    k := Twice(a, n, k, 17008294416139255888, 15682012922722820422, 12966478302481171490);
    k := TwiceMore(a, n, k, 12966478302481171490, 139614908301955267307188211045265799982, 6154639896030630926);
    k := Twice(a, n, k, 6154639896030630926, 2053456810505558856, 16825851914197678684);
    k := Twice(a, n, k, 16825851914197678684, 15347385506475331617, 14512818042174294187);
    k := Twice(a, n, k, 14512818042174294187, 11417835401394207358, 3100553235972234563);
    k := TwiceMore(a, n, k, 3100553235972234563, 7982999556364642662291784158183748819, 6082871433532515718);
    k := TwiceMore(a, n, k, 6082871433532515718, 30725927035013448809870633941562464070, 3346097404549838006);
  }

  /** Its 137th power. */
  lemma LowTo137(a: nat, n: nat) returns (k: nat)
    requires a == 15318189668295695229 && n == P
    ensures k == 137 && Power(a, k) % n == 10807434765896011965
  {
    k := First(a, n);
    k := Twice(a, n, k, 15318189668295695229, 12720235819192704332, 15499045534642117517);
    k := Twice(a, n, k, 15499045534642117517, 13022374654575157893, 17008294416139255888);
    k := Twice(a, n, k, 17008294416139255888, 15682012922722820422, 12966478302481171490);
    k := TwiceMore(a, n, k, 12966478302481171490, 139614908301955267307188211045265799982, 6154639896030630926);
    k := Twice(a, n, k, 6154639896030630926, 2053456810505558856, 16825851914197678684);
    k := Twice(a, n, k, 16825851914197678684, 15347385506475331617, 14512818042174294187);
    k := TwiceMore(a, n, k, 14512818042174294187, 174900568279937579402639445865671438648, 10807434765896011965);
  }

  /** G to (P - 1) / LARGE. */
  lemma GToRest(a: nat, n: nat) returns (k: nat)
    requires a == 5 && n == P
    ensures k == 3297316 && Power(a, k) % n == 7293648916228302286
  {
    k := First(a, n);
    k := TwiceMore(a, n, k, 5, 0, 125);
    k := Twice(a, n, k, 125, 0, 15625);
    k := Twice(a, n, k, 15625, 0, 244140625);
    k := TwiceMore(a, n, k, 244140625, 0, 298023223876953125);
    k := Twice(a, n, k, 298023223876953125, 4814824860968089, 11954221820370001052);
    k := Twice(a, n, k, 11954221820370001052, 7746809884692733801, 13389378850395028547);
    k := TwiceMore(a, n, k, 13389378850395028547, 48592712427476710212, 13741624476562255961);
    k := Twice(a, n, k, 13741624476562255961, 10236616418611245944, 360471388404898713);
    k := TwiceMore(a, n, k, 360471388404898713, 35220205077747661, 10472812867029623668);
    k := Twice(a, n, k, 10472812867029623668, 5945754378635186623, 7822850191370552213);
    k := Twice(a, n, k, 7822850191370552213, 3317495210650464987, 15929001843259362610);
    k := Twice(a, n, k, 15929001843259362610, 13754898897534044066, 15128664177929101338);
    k := Twice(a, n, k, 15128664177929101338, 12407418831963512558, 5751566511555437438);
    k := Twice(a, n, k, 5751566511555437438, 1793298438177640464, 6629805477714601396);
    k := Twice(a, n, k, 6629805477714601396, 2382768498153480991, 14773176534031195829);
    k := TwiceMore(a, n, k, 14773176534031195829, 59155898741148850578, 1419001668354736259);
    k := Twice(a, n, k, 1419001668354736259, 109155617205275538, 17491312316847402415);
    k := Twice(a, n, k, 17491312316847402415, 16585366249078847509, 11147666910171310712);
    k := TwiceMore(a, n, k, 11147666910171310712, 33683580431204568114, 7305914987428481222);
    k := Twice(a, n, k, 7305914987428481222, 2893540106061566274, 6595220896031224666);
    k := Twice(a, n, k, 6595220896031224666, 2357973769985734110, 7293648916228302286);
  }
}
